/** One poll's vote buffer and the goroutine that drains it. The functions are the critical
    sections under the shard's mutex; a run is any interleaving of them. */
module Buffer {
  import opened Votes

  datatype OutMsg = OutMsg(votes: seq<Vote>, done: bool)

  // Where the drainer goroutine stands between two critical sections.
  datatype Drainer =
    | NotStarted
    | AtTop                  // about to take the mutex
    | Waiting                // has seen an empty queue and receives from the wake channel
    | Sending(msg: OutMsg)   // holds a dequeued element and calls send
    | Exited

  // accepted and sent record the votes Add accepted and the elements handed to send.
  datatype PollBuf = PollBuf(votes: seq<Vote>, out: seq<OutMsg>, closed: bool, closedAt: int,
                             draining: bool, wake: bool, drainer: Drainer,
                             accepted: seq<Vote>, sent: seq<OutMsg>)

  const FRESH := PollBuf([], [], false, 0, false, false, NotStarted, [], [])

  const DONE_MARKER := OutMsg([], true)

  function EnsureDrainer(b: PollBuf): PollBuf {
    if b.draining then b.(wake := true)
    else b.(draining := true, wake := false, drainer := AtTop)
  }

  function AddVote(b: PollBuf, v: Vote, batchSize: nat): PollBuf {
    if b.closed then b
    else
      var votes := b.votes + [v];
      var b1 := b.(accepted := b.accepted + [v]);
      EnsureDrainer(
        if |votes| >= batchSize then b1.(out := b.out + [OutMsg(votes, false)], votes := [])
        else b1.(votes := votes))
  }

  function CloseBuf(b: PollBuf, now: int): PollBuf {
    if b.closed then b
    else
      var rest := if |b.votes| > 0 then [OutMsg(b.votes, false)] else [];
      EnsureDrainer(b.(closed := true, closedAt := now, votes := [], out := b.out + rest + [DONE_MARKER]))
  }

  // The drainer's next move, or nothing while it is blocked or gone.
  function DrainerTurn(b: PollBuf): PollBuf {
    match b.drainer
    case AtTop =>
      if b.out == [] then b.(drainer := if b.closed then Exited else Waiting)
      else b.(out := b.out[1..], drainer := Sending(b.out[0]))
    case Waiting => if b.wake then b.(wake := false, drainer := AtTop) else b
    case Sending(msg) => b.(sent := b.sent + [msg], drainer := AtTop)
    case NotStarted => b
    case Exited => b
  }

  datatype Event = Add(vote: Vote) | Close(now: int) | Turn

  function Apply(b: PollBuf, e: Event, batchSize: nat): PollBuf {
    match e
    case Add(v) => AddVote(b, v, batchSize)
    case Close(now) => CloseBuf(b, now)
    case Turn => DrainerTurn(b)
  }

  function Run(b: PollBuf, es: seq<Event>, batchSize: nat): PollBuf {
    if es == [] then b else Apply(Run(b, es[..|es| - 1], batchSize), es[|es| - 1], batchSize)
  }

  // ---- The stream a buffer owes to the log ----

  // The full chunks of n votes, cut from the front.
  function Chunks(votes: seq<Vote>, n: nat): seq<OutMsg>
    requires n > 0
  {
    if |votes| < n then [] else [OutMsg(votes[..n], false)] + Chunks(votes[n..], n)
  }

  // What is left after the full chunks.
  function Rest(votes: seq<Vote>, n: nat): (r: seq<Vote>)
    requires n > 0
    ensures |r| < n
  {
    if |votes| < n then votes else Rest(votes[n..], n)
  }

  // What closing adds: the rest, unless it is empty, and the done marker.
  function Ending(left: seq<Vote>): seq<OutMsg> {
    (if left == [] then [] else [OutMsg(left, false)]) + [DONE_MARKER]
  }

  function Stream(votes: seq<Vote>, closed: bool, n: nat): seq<OutMsg>
    requires n > 0
  {
    if closed then Chunks(votes, n) + Ending(Rest(votes, n)) else Chunks(votes, n)
  }

  lemma {:induction false} ChunksAfterVote(votes: seq<Vote>, v: Vote, n: nat)
    requires n > 0
    ensures var rest := Rest(votes, n) + [v];
            if |rest| == n
            then Chunks(votes + [v], n) == Chunks(votes, n) + [OutMsg(rest, false)] && Rest(votes + [v], n) == []
            else Chunks(votes + [v], n) == Chunks(votes, n) && Rest(votes + [v], n) == rest
  {
    if |votes| < n {
      if |votes| + 1 == n {
        assert (votes + [v])[..n] == votes + [v] && (votes + [v])[n..] == [];
      }
    } else {
      assert (votes + [v])[..n] == votes[..n] && (votes + [v])[n..] == votes[n..] + [v];
      ChunksAfterVote(votes[n..], v, n);
    }
  }

  // ---- The invariant ----

  function InFlight(b: PollBuf): seq<OutMsg> {
    if b.drainer.Sending? then [b.drainer.msg] else []
  }

  ghost predicate Inv(b: PollBuf, n: nat)
    requires n > 0
  {
    // Nothing is lost, repeated or reordered, and everything is cut at the same places.
    && b.sent + InFlight(b) + b.out == Stream(b.accepted, b.closed, n)
    && b.votes == (if b.closed then [] else Rest(b.accepted, n))
    // One drainer, started by the first call.
    && (b.draining <==> b.drainer != NotStarted)
    && (!b.draining ==> b.accepted == [] && !b.closed)
    // No lost wakeup.
    && (b.drainer.Waiting? && (b.out != [] || b.closed) ==> b.wake)
    && (b.drainer.Exited? ==> b.closed && b.out == [])
  }

  lemma FreshInv(n: nat)
    requires n > 0
    ensures Inv(FRESH, n)
  {
  }

  lemma AddKeepsInv(b: PollBuf, v: Vote, n: nat)
    requires n > 0 && Inv(b, n)
    ensures Inv(AddVote(b, v, n), n)
  {
    ChunksAfterVote(b.accepted, v, n);
    if !b.closed && |b.votes + [v]| >= n {
      var chunk := [OutMsg(b.votes + [v], false)];
      assert b.sent + InFlight(b) + (b.out + chunk) == (b.sent + InFlight(b) + b.out) + chunk;
    }
  }

  lemma CloseKeepsInv(b: PollBuf, now: int, n: nat)
    requires n > 0 && Inv(b, n)
    ensures Inv(CloseBuf(b, now), n)
  {
    if !b.closed {
      var rest := if |b.votes| > 0 then [OutMsg(b.votes, false)] else [];
      assert b.sent + InFlight(b) + (b.out + rest + [DONE_MARKER])
          == (b.sent + InFlight(b) + b.out) + (rest + [DONE_MARKER]);
    }
  }

  lemma TurnKeepsInv(b: PollBuf, n: nat)
    requires n > 0 && Inv(b, n)
    ensures Inv(DrainerTurn(b), n)
  {
    hide Stream, Rest;
    var b' := DrainerTurn(b);
    assert b'.sent + InFlight(b') + b'.out == b.sent + InFlight(b) + b.out;
  }

  /** Every interleaving of any calls with the drainer keeps the invariant. */
  lemma {:induction false} RunKeepsInv(b: PollBuf, es: seq<Event>, n: nat)
    requires n > 0 && Inv(b, n)
    ensures Inv(Run(b, es, n), n)
  {
    if es == [] {
    } else {
      var init := Run(b, es[..|es| - 1], n);
      RunKeepsInv(b, es[..|es| - 1], n);
      match es[|es| - 1]
      case Add(v) => AddKeepsInv(init, v, n);
      case Close(now) => CloseKeepsInv(init, now, n);
      case Turn => TurnKeepsInv(init, n);
    }
  }

  // ---- What the invariant means ----

  function Flatten(ms: seq<OutMsg>): seq<Vote> {
    if ms == [] then [] else Flatten(ms[..|ms| - 1]) + ms[|ms| - 1].votes
  }

  lemma {:induction false} FlattenAppend(a: seq<OutMsg>, b: seq<OutMsg>)
    ensures Flatten(a + b) == Flatten(a) + Flatten(b)
  {
    if b == [] {
      assert a + b == a;
    } else {
      assert (a + b)[..|a + b| - 1] == a + b[..|b| - 1];
      FlattenAppend(a, b[..|b| - 1]);
    }
  }

  lemma FlattenOne(m: OutMsg)
    ensures Flatten([m]) == m.votes && Flatten([]) == []
  {
    assert [m][..0] == [];
  }

  lemma FirstChunk(votes: seq<Vote>, n: nat)
    requires n > 0
    ensures if |votes| < n then Chunks(votes, n) == [] && Rest(votes, n) == votes
            else Chunks(votes, n) == [OutMsg(votes[..n], false)] + Chunks(votes[n..], n)
                 && Rest(votes, n) == Rest(votes[n..], n)
  {
  }

  lemma {:induction false} FlattenChunks(votes: seq<Vote>, n: nat)
    requires n > 0
    ensures Flatten(Chunks(votes, n)) + Rest(votes, n) == votes
  {
    hide Flatten, Chunks, Rest;
    FirstChunk(votes, n);
    FlattenOne(DONE_MARKER);
    if |votes| < n {
      assert [] + votes == votes;
    } else {
      var first, chunks, rest := votes[..n], Chunks(votes[n..], n), Rest(votes[n..], n);
      FlattenChunks(votes[n..], n);
      FlattenAppend([OutMsg(first, false)], chunks);
      FlattenOne(OutMsg(first, false));
      assert (first + Flatten(chunks)) + rest == first + (Flatten(chunks) + rest) == votes;
    }
  }

  lemma FlattenEnding(left: seq<Vote>)
    ensures Flatten(Ending(left)) == left
  {
    hide Flatten;
    var rest := if left == [] then [] else [OutMsg(left, false)];
    FlattenAppend(rest, [DONE_MARKER]);
    FlattenOne(DONE_MARKER);
    FlattenOne(OutMsg(left, false));
  }

  lemma FlattenStream(votes: seq<Vote>, closed: bool, n: nat)
    requires n > 0
    ensures Flatten(Stream(votes, closed, n)) + (if closed then [] else Rest(votes, n)) == votes
  {
    FlattenChunks(votes, n);
    if closed {
      FlattenEnding(Rest(votes, n));
      FlattenAppend(Chunks(votes, n), Ending(Rest(votes, n)));
    }
  }

  lemma Conserved(b: PollBuf, n: nat)
    requires n > 0 && Inv(b, n)
    ensures Flatten(b.sent) + Flatten(InFlight(b)) + Flatten(b.out) + b.votes == b.accepted
  {
    FlattenAppend(b.sent + InFlight(b), b.out);
    FlattenAppend(b.sent, InFlight(b));
    FlattenStream(b.accepted, b.closed, n);
  }

  /** Conservation, in order, at every point of every run. */
  lemma Conservation(es: seq<Event>, n: nat)
    requires n > 0
    ensures var b := Run(FRESH, es, n);
            Flatten(b.sent) + Flatten(InFlight(b)) + Flatten(b.out) + b.votes == b.accepted
  {
    FreshInv(n);
    RunKeepsInv(FRESH, es, n);
    Conserved(Run(FRESH, es, n), n);
  }

  lemma {:induction false} ChunksAreFull(votes: seq<Vote>, n: nat)
    requires n > 0
    ensures forall m :: m in Chunks(votes, n) ==> !m.done && |m.votes| == n
  {
    if |votes| < n {
    } else {
      ChunksAreFull(votes[n..], n);
    }
  }

  /** Shape of what is sent: full chunks, then a non-empty shorter one at most, then exactly
      one done marker, which is last. */
  lemma StreamShape(votes: seq<Vote>, closed: bool, n: nat, i: nat)
    requires n > 0 && i < |Stream(votes, closed, n)|
    ensures var s := Stream(votes, closed, n);
            && (s[i].done <==> closed && i == |s| - 1)
            && (s[i].done ==> s[i].votes == [])
            && (!s[i].done ==> 0 < |s[i].votes| <= n)
            && (!s[i].done && |s[i].votes| < n ==> closed && i == |s| - 2)
  {
    ChunksAreFull(votes, n);
    var chunks := Chunks(votes, n);
    if i < |chunks| {
      assert Stream(votes, closed, n)[i] == chunks[i];
    } else {
      assert Stream(votes, closed, n)[i] == Ending(Rest(votes, n))[i - |chunks|];
    }
  }

  lemma DoneEndsTheStream(sent: seq<OutMsg>, unsent: seq<OutMsg>, votes: seq<Vote>, closed: bool, n: nat, i: nat)
    requires n > 0 && sent + unsent == Stream(votes, closed, n)
    requires i < |sent| && sent[i].done
    ensures closed && i == |sent| - 1 && unsent == [] && sent == Stream(votes, true, n)
  {
    assert (sent + unsent)[i] == sent[i];
    StreamShape(votes, closed, n, i);
    assert |sent + unsent| == |sent| + |unsent|;
    assert unsent == [];
    assert sent + unsent == sent;
  }

  lemma SentDoneIsLast(b: PollBuf, n: nat, i: nat)
    requires n > 0 && Inv(b, n)
    requires i < |b.sent| && b.sent[i].done
    ensures b.closed && i == |b.sent| - 1 && InFlight(b) + b.out == [] && Flatten(b.sent) == b.accepted
  {
    assert b.sent + InFlight(b) + b.out == b.sent + (InFlight(b) + b.out);
    DoneEndsTheStream(b.sent, InFlight(b) + b.out, b.accepted, b.closed, n, i);
    FlattenStream(b.accepted, true, n);
  }

  /** Nothing goes out after the done marker, and the marker goes out at most once. */
  lemma DoneIsSentOnceAndLast(es: seq<Event>, n: nat, i: nat)
    requires n > 0 && i < |Run(FRESH, es, n).sent| && Run(FRESH, es, n).sent[i].done
    ensures var b := Run(FRESH, es, n);
            b.closed && i == |b.sent| - 1 && InFlight(b) + b.out == [] && Flatten(b.sent) == b.accepted
  {
    FreshInv(n);
    RunKeepsInv(FRESH, es, n);
    SentDoneIsLast(Run(FRESH, es, n), n, i);
  }

  // ---- Progress after Close ----

  function Measure(b: PollBuf): nat {
    2 * |b.out|
    + match b.drainer
      case Waiting => 2
      case Sending(_) => 2
      case AtTop => 1
      case NotStarted => 0
      case Exited => 0
  }

  lemma TurnMakesProgress(b: PollBuf, n: nat)
    requires n > 0 && Inv(b, n) && b.closed && !b.drainer.Exited?
    ensures Measure(DrainerTurn(b)) < Measure(b)
  {
  }

  function Turns(es: seq<Event>): nat {
    if es == [] then 0 else Turns(es[..|es| - 1]) + if es[|es| - 1].Turn? then 1 else 0
  }

  lemma {:induction false} ClosedRunShrinks(b: PollBuf, es: seq<Event>, n: nat)
    requires n > 0 && Inv(b, n) && b.closed
    ensures var b' := Run(b, es, n);
            && Inv(b', n) && b'.closed && b'.accepted == b.accepted
            && (b'.drainer.Exited? || Measure(b') + Turns(es) <= Measure(b))
  {
    RunKeepsInv(b, es, n);
    if es == [] {
    } else {
      var init := Run(b, es[..|es| - 1], n);
      ClosedRunShrinks(b, es[..|es| - 1], n);
      if !init.drainer.Exited? {
        TurnMakesProgress(init, n);
      }
    }
  }

  /** Once closed, however the other callers interleave, after Measure(b) turns of the drainer
      it has exited with the whole stream sent. */
  lemma ClosedBufferDrains(b: PollBuf, es: seq<Event>, n: nat)
    requires n > 0 && Inv(b, n) && b.closed && Turns(es) >= Measure(b)
    ensures var b' := Run(b, es, n);
            b'.drainer.Exited? && b'.sent == Stream(b.accepted, true, n)
  {
    ClosedRunShrinks(b, es, n);
    var b' := Run(b, es, n);
    assert b'.drainer.NotStarted? ==> !b'.closed;
    assert b'.sent == b'.sent + InFlight(b') + b'.out;
  }

  /** The wake token can be relied on: a drainer that is blocked for good has nothing to do. */
  lemma BlockedOnlyWhenIdle(es: seq<Event>, n: nat)
    requires n > 0
    ensures var b := Run(FRESH, es, n);
            b.drainer.Waiting? && DrainerTurn(b) == b ==> b.out == [] && !b.closed
  {
    FreshInv(n);
    RunKeepsInv(FRESH, es, n);
  }
}
