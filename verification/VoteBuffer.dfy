/** The sharded buffer itself: heap records filled by Add and Close and emptied by their
    drainers, each method being one critical section of Buffer. */
module VoteBuffers {
  import opened Basics
  import opened Votes
  import opened Buffer
  import opened Lifetimes
  import opened Hashing

  const SHARDS := 64

  class PollBuffer {
    var votes: seq<Vote>
    var out: seq<OutMsg>
    var closed: bool
    var closedAt: int
    var draining: bool
    var wake: bool
    var drainer: Drainer
    ghost var accepted: seq<Vote>
    ghost var sent: seq<OutMsg>

    ghost function View(): PollBuf
      reads this
    {
      PollBuf(votes, out, closed, closedAt, draining, wake, drainer, accepted, sent)
    }

    constructor ()
      ensures View() == FRESH
    {
      votes, out, closed, closedAt := [], [], false, 0;
      draining, wake, drainer := false, false, NotStarted;
      accepted, sent := [], [];
    }

    method WakeDrainer()
      modifies this
      ensures View() == EnsureDrainer(old(View()))
    {
      if draining {
        wake := true;
        return;
      }
      draining, wake, drainer := true, false, AtTop;
    }

    method Accept(v: Vote, batchSize: nat) returns (ok: bool)
      modifies this
      ensures View() == AddVote(old(View()), v, batchSize)
      ensures ok == !old(closed)
      ensures accepted == old(accepted) + if ok then [v] else []
    {
      if closed {
        return false;
      }
      votes := votes + [v];
      accepted := accepted + [v];
      if |votes| >= batchSize {
        out := out + [OutMsg(votes, false)];
        votes := [];
      }
      WakeDrainer();
      return true;
    }

    method Shut(now: int) returns (alreadyClosed: bool)
      modifies this
      ensures View() == CloseBuf(old(View()), now)
      ensures alreadyClosed == old(closed)
    {
      if closed {
        return true;
      }
      closed, closedAt := true, now;
      if |votes| > 0 {
        out := out + [OutMsg(votes, false)];
        votes := [];
      }
      out := out + [DONE_MARKER];
      WakeDrainer();
      return false;
    }

    // The drainer's critical section at the top of its loop.
    method TakeNext()
      requires drainer.AtTop?
      modifies this
      ensures View() == DrainerTurn(old(View()))
    {
      if |out| == 0 {
        drainer := if closed then Exited else Waiting;
        return;
      }
      var msg := out[0];
      out := out[1..];
      drainer := Sending(msg);
    }

    // The receive from the wake channel completes.
    method ReceiveWake()
      requires drainer.Waiting? && wake
      modifies this
      ensures View() == DrainerTurn(old(View()))
    {
      wake, drainer := false, AtTop;
    }

    // The send callback returns.
    method FinishSend() returns (msg: OutMsg)
      requires drainer.Sending?
      modifies this
      ensures View() == DrainerTurn(old(View()))
      ensures sent == old(sent) + [msg]
    {
      msg := drainer.msg;
      sent := sent + [msg];
      drainer := AtTop;
    }
  }

  class VoteBuffer {
    const batchSize: nat
    const shards: array<map<string, PollBuffer>>

    ghost predicate Has(id: string)
      reads shards
      requires shards.Length == SHARDS
    {
      id in shards[ShardOf(id, SHARDS)]
    }

    ghost function At(id: string): PollBuffer
      reads shards
      requires shards.Length == SHARDS && Has(id)
    {
      shards[ShardOf(id, SHARDS)][id]
    }

    ghost predicate Valid()
      reads this, shards
    {
      && batchSize > 0
      && shards.Length == SHARDS
      && (forall i, id :: 0 <= i < SHARDS && id in shards[i] ==> i == ShardOf(id, SHARDS))
      && (forall a, b :: Has(a) && Has(b) && a != b ==> At(a) != At(b))
    }

    // The poll's live buffer, if it has one.
    ghost function Live(id: string): Option<PollBuf>
      requires Valid()
      reads this, shards, if Has(id) then {At(id)} else {}
    {
      if Has(id) then Some(At(id).View()) else None
    }

    // The buffer of a poll, as its next caller finds it.
    ghost function ViewOf(id: string): PollBuf
      requires Valid()
      reads this, shards, if Has(id) then {At(id)} else {}
    {
      OrFresh(Live(id))
    }

    ghost function Buffers(): set<PollBuffer>
      requires shards.Length == SHARDS
      reads shards
    {
      set i, id | 0 <= i < SHARDS && id in shards[i] :: shards[i][id]
    }

    constructor (size: int)
      ensures Valid() && fresh(shards)
      ensures batchSize == if size <= 0 then 10000 else size
      ensures shards.Length == 64 && forall id :: !Has(id)
    {
      batchSize := if size <= 0 then 10000 else size;
      shards := new map<string, PollBuffer>[SHARDS](_ => map[]);
    }

    method PollLocked(id: string) returns (pb: PollBuffer)
      requires Valid()
      modifies shards
      ensures Valid() && Has(id) && At(id) == pb
      ensures pb.View() == old(ViewOf(id))
      ensures if old(Has(id)) then pb == old(At(id)) else fresh(pb)
      ensures old(Has(id)) ==> shards[..] == old(shards[..])
      ensures forall q :: q != id ==> Has(q) == old(Has(q)) && (Has(q) ==> At(q) == old(At(q)))
    {
      hide Fnv1a;
      var h := HashLoop(id);
      var i := h % SHARDS;
      assert i == ShardOf(id, SHARDS);
      if id in shards[i] {
        return shards[i][id];
      }
      pb := new PollBuffer();
      ghost var before := shards[..];
      shards[i] := shards[i][id := pb];
      assert forall k :: 0 <= k < SHARDS && k != i ==> shards[k] == before[k];
      assert forall q :: q != id ==> (q in shards[i] <==> q in before[i]);
      assert forall q :: q != id ==> Has(q) == old(Has(q));
    }

    method Add(id: string, v: Vote) returns (ok: bool)
      requires Valid()
      modifies shards, Buffers()
      ensures Valid() && Has(id)
      ensures ok == !old(ViewOf(id)).closed
      ensures ViewOf(id) == AddVote(old(ViewOf(id)), v, batchSize)
      ensures forall q :: q != id ==> Has(q) == old(Has(q)) && ViewOf(q) == old(ViewOf(q))
      ensures old(Has(id)) ==> shards[..] == old(shards[..])
    {
      var pb := PollLocked(id);
      ok := pb.Accept(v, batchSize);
    }

    method Close(id: string, now: int) returns (alreadyClosed: bool)
      requires Valid()
      modifies shards, Buffers()
      ensures Valid() && Has(id)
      ensures alreadyClosed == old(ViewOf(id)).closed
      ensures ViewOf(id) == CloseBuf(old(ViewOf(id)), now)
      ensures forall q :: q != id ==> Has(q) == old(Has(q)) && ViewOf(q) == old(ViewOf(q))
      ensures old(Has(id)) ==> shards[..] == old(shards[..])
    {
      var pb := PollLocked(id);
      alreadyClosed := pb.Shut(now);
    }

    /** Every known poll exactly once, although the shards are visited one by one. */
    method PollIDs() returns (ids: seq<string>)
      requires Valid()
      ensures forall q :: q in ids <==> Has(q)
      ensures forall i, j :: 0 <= i < j < |ids| ==> ids[i] != ids[j]
    {
      ids := [];
      for i := 0 to SHARDS
        invariant forall q :: q in ids <==> Has(q) && ShardOf(q, SHARDS) < i
        invariant forall k, l :: 0 <= k < l < |ids| ==> ids[k] != ids[l]
      {
        var rest := shards[i].Keys;
        while exists id :: id in rest
          invariant rest <= shards[i].Keys
          invariant forall q :: q in ids <==> Has(q) && (ShardOf(q, SHARDS) < i || (q in shards[i] && q !in rest))
          invariant forall k, l :: 0 <= k < l < |ids| ==> ids[k] != ids[l]
          decreases rest
        {
          var id :| id in rest;
          ids := ids + [id];
          rest := rest - {id};
        }
      }
    }

    /** Drops exactly the expired buffers; DroppedWasSent says that no vote goes with them. */
    method Cleanup(ttl: int, now: int)
      requires Valid()
      modifies shards
      ensures Valid()
      ensures forall q :: Has(q) <==> old(Has(q)) && !Expired(old(ViewOf(q)), ttl, now)
      ensures forall q :: Has(q) ==> At(q) == old(At(q))
      ensures forall q :: Live(q) == if Goes(old(Live(q)), ttl, now) then None else old(Live(q))
    {
      hide Fnv1a;
      for i := 0 to SHARDS
        invariant Valid()
        invariant forall q :: ShardOf(q, SHARDS) >= i ==> Has(q) == old(Has(q))
        invariant forall q :: ShardOf(q, SHARDS) < i ==> (Has(q) <==> old(Has(q)) && !Expired(old(ViewOf(q)), ttl, now))
        invariant forall q :: Has(q) ==> old(Has(q)) && At(q) == old(At(q))
      {
        var polls := shards[i];
        shards[i] := map id | id in polls
                            && !(polls[id].closed && |polls[id].out| == 0 && now - polls[id].closedAt > ttl)
                        :: polls[id];
      }
    }
  }
}
