/** The parts of the API worker that decide when votes are taken and when polls are closed. */
module Server {
  import opened Basics
  import opened Service
  import opened Votes
  import opened Buffer
  import opened Lifetimes
  import opened VoteBuffers
  import opened Hashing

  datatype Status = Accepted | BadOption | Closed | NoPoll

  // What a watcher's pass makes of one buffer before the cleanup.
  function Swept(b: PollBuf, id: string, known: map<string, Poll>, now: int, closeAt: string -> int): PollBuf {
    if id in known && Ended(known[id], now) then CloseBuf(b, closeAt(id)) else b
  }

  lemma SweptByEnd(known: map<string, Poll>, now: int, closeAt: string -> int)
    ensures forall b, q :: Swept(b, q, known, now, closeAt)
              == if q in known && (known[q].endsAt.None? || now >= known[q].endsAt.value)
                 then CloseBuf(b, closeAt(q)) else b
    ensures forall b: PollBuf, t: int :: CloseBuf(b, t).closed
  {
  }

  class Api {
    const buf: VoteBuffer
    const closeTTL: int
    // The polls that started goroutines are about to close.
    var closers: seq<string>

    ghost predicate Valid()
      reads this, buf, buf.shards
    {
      buf.Valid()
    }

    constructor (batchSize: int, cacheTTL: int, ttl: int)
      ensures Valid() && fresh(buf) && fresh(buf.shards) && closers == [] && forall id :: !buf.Has(id)
      ensures buf.batchSize == if batchSize <= 0 then 10000 else batchSize
      ensures ttl > 0 ==> closeTTL == ttl
      ensures ttl <= 0 && cacheTTL > 0 ==> closeTTL == cacheTTL
      ensures ttl <= 0 && cacheTTL <= 0 ==> closeTTL == 60_000_000_000
    {
      buf := new VoteBuffer(batchSize);
      var cached := if cacheTTL <= 0 then 60 * SECOND else cacheTTL;
      closeTTL := if ttl <= 0 then cached else ttl;
      closers := [];
    }

    /** Accepted means: the poll is known, has the option, has not ended by this clock, and its
        buffer was still open; then and only then the vote is added. A vote that comes too late
        starts a goroutine that closes the poll. */
    method HandleVote(id: string, v: Vote, answer: Answer, now: int) returns (s: Status)
      requires Valid()
      modifies this`closers, buf.shards, buf.Buffers()
      ensures Valid()
      ensures s == Accepted <==> answer.Found? && v.option in answer.poll.options
                                 && answer.poll.endsAt.Some? && now < answer.poll.endsAt.value
                                 && !old(buf.ViewOf(id)).closed
      ensures s == NoPoll <==> answer.Failed?
      ensures s == BadOption <==> answer.Found? && v.option !in answer.poll.options
      ensures closers == if answer.Found? && v.option in answer.poll.options
                            && (answer.poll.endsAt.None? || now >= answer.poll.endsAt.value)
                         then old(closers) + [id] else old(closers)
      ensures buf.ViewOf(id) == if s == Accepted then AddVote(old(buf.ViewOf(id)), v, buf.batchSize)
                                else old(buf.ViewOf(id))
      ensures forall q :: q != id ==> buf.ViewOf(q) == old(buf.ViewOf(q))
    {
      if answer.Failed? {
        return NoPoll;
      }
      if v.option !in answer.poll.options {
        return BadOption;
      }
      if Ended(answer.poll, now) {
        closers := closers + [id];
        return Closed;
      }
      var ok := buf.Add(id, v);
      return if ok then Accepted else Closed;
    }

    /** One of the started goroutines runs: whatever happened since, its poll is closed after it. */
    method RunCloser(i: nat, now: int)
      requires Valid() && i < |closers|
      modifies this`closers, buf.shards, buf.Buffers()
      ensures Valid() && closers == old(closers[..i] + closers[i + 1..])
      ensures buf.ViewOf(old(closers[i])) == CloseBuf(old(buf.ViewOf(closers[i])), now)
      ensures buf.ViewOf(old(closers[i])).closed
      ensures !old(buf.ViewOf(closers[i])).closed ==> buf.ViewOf(old(closers[i])).closedAt == now
      ensures forall q :: q != old(closers[i]) ==> buf.Has(q) == old(buf.Has(q)) && buf.ViewOf(q) == old(buf.ViewOf(q))
    {
      var id := closers[i];
      closers := closers[..i] + closers[i + 1..];
      ClosePoll(id, now);
    }

    method ClosePoll(id: string, now: int)
      requires Valid()
      modifies buf.shards, buf.Buffers()
      ensures Valid()
      ensures buf.ViewOf(id) == CloseBuf(old(buf.ViewOf(id)), now)
      ensures forall q :: q != id ==> buf.Has(q) == old(buf.Has(q)) && buf.ViewOf(q) == old(buf.ViewOf(q))
      ensures old(buf.Has(id)) ==> buf.shards[..] == old(buf.shards[..])
    {
      var alreadyClosed := buf.Close(id, now);
    }

    method SweepOne(id: string, known: map<string, Poll>, now: int, closeAt: string -> int)
      requires Valid() && buf.Has(id)
      modifies buf.shards, buf.Buffers()
      ensures Valid()
      ensures buf.ViewOf(id) == Swept(old(buf.ViewOf(id)), id, known, now, closeAt)
      ensures forall q :: q != id ==> buf.ViewOf(q) == old(buf.ViewOf(q))
      ensures buf.shards[..] == old(buf.shards[..])
    {
      hide Fnv1a;
      if id in known && Ended(known[id], now) {
        ClosePoll(id, closeAt(id));
      }
    }

    /** One pass of the watcher. known holds the polls the cache could answer for, closeAt the
        clock readings of the closes. Every known poll that has ended is closed, with its rest
        and done mark queued; then exactly the drained and expired buffers go. */
    method Sweep(known: map<string, Poll>, now: int, closeAt: string -> int)
      requires Valid()
      modifies buf.shards, buf.Buffers()
      ensures Valid()
      ensures forall q :: buf.Has(q) <==>
                old(buf.Has(q)) && !Expired(Swept(old(buf.ViewOf(q)), q, known, now, closeAt), closeTTL, now)
      ensures forall q :: buf.Has(q) ==> buf.ViewOf(q) == Swept(old(buf.ViewOf(q)), q, known, now, closeAt)
      // In terms of the end times: what has ended, or has no end time, is closed, the rest is left alone.
      ensures forall q :: buf.Has(q) && q in known && (known[q].endsAt.None? || now >= known[q].endsAt.value) ==>
                buf.ViewOf(q) == CloseBuf(old(buf.ViewOf(q)), closeAt(q)) && buf.ViewOf(q).closed
      ensures forall q :: old(buf.Has(q)) && !old(buf.ViewOf(q)).closed
                          && (q in known ==> known[q].endsAt.Some? && now < known[q].endsAt.value) ==>
                buf.Has(q) && buf.ViewOf(q) == old(buf.ViewOf(q))
      // And only closed, drained buffers older than the ttl go.
      ensures forall q :: old(buf.Has(q)) && !buf.Has(q) ==>
                var b := Swept(old(buf.ViewOf(q)), q, known, now, closeAt);
                b.closed && |b.out| == 0 && now - b.closedAt > closeTTL
    {
      hide Fnv1a, CloseBuf, Swept, EnsureDrainer;
      var ids := buf.PollIDs();
      for i := 0 to |ids|
        invariant Valid()
        invariant buf.shards[..] == old(buf.shards[..])
        invariant forall q :: buf.Has(q) ==>
                    buf.ViewOf(q) == if q in ids[..i] then Swept(old(buf.ViewOf(q)), q, known, now, closeAt)
                                     else old(buf.ViewOf(q))
      {
        var id := ids[i];
        assert id in ids && id !in ids[..i];
        assert ids[..i + 1] == ids[..i] + [id];
        assert forall k :: 0 <= k < SHARDS ==> buf.shards[k] == buf.shards[..][k] == old(buf.shards[..])[k];
        assert buf.Buffers() == old(buf.Buffers());
        SweepOne(id, known, now, closeAt);
      }
      assert ids[..|ids|] == ids;
      buf.Cleanup(closeTTL, now);
      SweptByEnd(known, now, closeAt);
    }
  }
}
