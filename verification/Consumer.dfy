/** The consumer object. Each method is one critical section, or several with the answers of
    the outside world between them given as arguments, proved against ConsumerState. */
module Consumers {
  import opened Basics
  import opened Service
  import opened Votes
  import opened Totals
  import opened ConsumerState
  import opened ConsumerRuns
  import opened ConsumerCheck
  import Store

  class Consumer {
    const cfg: Config
    var polls: map<string, PollState>
    // The queue of each partition, in offset order.
    var pending: map<nat, seq<Pending>>
    var created: nat

    ghost function View(): Mem
      reads this
    {
      Mem(polls, pending, created)
    }

    constructor (c: Config)
      ensures cfg == WithDefaults(c) && View() == Mem(map[], map[], 0)
    {
      cfg := WithDefaults(c);
      polls, pending, created := map[], map[], 0;
    }

    method QueueOf(p: nat) returns (q: seq<Pending>)
      ensures q == Queue(View(), p)
    {
      q := if p in pending then pending[p] else [];
    }

    // The deduplicating loop over one batch's votes.
    method CountBatch(t: Tally, votes: seq<Vote>) returns (r: Tally)
      ensures r == CountVotes(t, votes)
    {
      var dedup, counts := t.dedup, t.counts;
      for i := 0 to |votes|
        invariant t.(dedup := dedup, counts := counts) == CountVotes(t, votes[..i])
      {
        var v := votes[i];
        assert votes[..i + 1][..i] == votes[..i];
        if v.fingerprint in dedup {
          continue;
        }
        dedup := dedup + {v.fingerprint};
        counts := counts[v.option := (if v.option in counts then counts[v.option] else 0) + 1];
      }
      assert votes[..|votes|] == votes;
      r := t.(dedup := dedup, counts := counts);
    }

    method AbsorbBatch(b: Batch, now: int)
      modifies this
      ensures pending == old(pending)
      ensures polls == old(polls)[b.poll := Absorbed(old(View()), b, now)]
      ensures created == if b.poll in old(polls) then old(created) else old(created) + 1
    {
      if b.poll !in polls {
        polls := polls[b.poll := FreshState(created, now)];
        created := created + 1;
      }
      var st := polls[b.poll];
      var t := st.tally;
      if b.worker != "" {
        t := t.(seen := t.seen + {b.worker});
      }
      t := CountBatch(t, b.votes);
      if b.done && b.worker != "" {
        t := t.(doneBy := t.doneBy + {b.worker});
      }
      polls := polls[b.poll := st.(tally := t, lastSeen := now)];
    }

    method CoolOtherPolls(poll: string)
      modifies this`polls
      ensures polls == CoolOthers(old(polls), poll)
    {
      var rest := polls.Keys - {poll};
      while exists id :: id in rest
        invariant rest <= old(polls).Keys - {poll} && polls.Keys == old(polls).Keys
        invariant forall id :: id in polls ==>
                    polls[id] == if id == poll || id in rest then old(polls)[id] else Cooler(old(polls)[id])
        decreases rest
      {
        var id :| id in rest;
        var other := polls[id];
        if !other.flushed {
          polls := polls[id := other.(staleCount := other.staleCount + 1)];
        }
        rest := rest - {id};
      }
    }

    /** Registers a well-formed batch: worker, votes, done mark, cooling of the other polls, and
        the entry waiting for its commit. */
    method RegisterBatch(p: nat, offset: nat, b: Batch, now: int)
      modifies this
      ensures View() == Register(old(View()), p, offset, b, now)
    {
      AbsorbBatch(b, now);
      CoolOtherPolls(b.poll);
      var q := QueueOf(p);
      pending := pending[p := q + [Pending(p, offset, b.poll, At(p, offset))]];
    }

    method MarkCommittable(p: nat, offset: nat)
      modifies this
      ensures View() == Mark(old(View()), p, offset)
    {
      var q := QueueOf(p);
      pending := pending[p := q + [Pending(p, offset, "", Zero)]];
    }

    method EnsureEndsAt(id: string, answer: Answer, now: int)
      modifies this
      ensures View() == if id !in old(polls) || old(polls)[id].endsAtKnown then old(View())
                        else Learn(old(View()), id, answer, now, cfg)
    {
      if id !in polls || polls[id].endsAtKnown {
        return;
      }
      var st := polls[id];
      match answer {
        case Failed(NotFound) => st := st.(endsAt := Some(now + cfg.closeHardTmo), endsAtKnown := true);
        case Failed(_) =>
          if st.endsAt.None? {
            st := st.(endsAt := Some(now + cfg.closeHardTmo));
          }
        case Found(poll) => st := st.(endsAt := poll.endsAt, endsAtKnown := true);
      }
      polls := polls[id := st];
    }

    /** Claims a poll that is ready, with the results as they stand; the flag goes up before the
        flush so that no other goroutine flushes too. */
    method ClaimFlush(id: string, now: int) returns (results: Option<Results>)
      modifies this
      ensures View() == BeginFlush(old(View()), id, now, cfg)
      ensures results == if Claims(old(View()), id, now, cfg) then Some(ResultsOf(old(polls)[id].tally)) else None
    {
      if id !in polls || polls[id].flushed || polls[id].endsAt.None? {
        return None;
      }
      var st := polls[id];
      if now < st.endsAt.value + cfg.closeGrace {
        return None;
      }
      var hard := !(now < st.endsAt.value + cfg.closeHardTmo);
      var quorumReady := false;
      if |st.tally.seen| > 0 {
        var need := (|st.tally.seen| * cfg.donePercent + 99) / 100;
        if need == 0 {
          need := 1;
        }
        quorumReady := |st.tally.doneBy| >= need;
      }
      var staleReady := st.staleCount >= cfg.staleMessages;
      if !hard && !quorumReady && !staleReady {
        return None;
      }
      var r := BuildResults(st.tally);
      polls := polls[id := st.(flushed := true)];
      return Some(r);
    }

    /** The retry loop around FlushResults, for the fates of its attempts to come; running out of
        them is the end of the context. It returns success on the first answer that the row is
        completed, by this call or before, and retries everything else, a missing poll too. */
    method Flush(store: Store.Storage, id: string, results: Results, fates: seq<Fate>) returns (ok: bool)
      modifies store
      ensures ok <==> Answered in fates && id in old(store.rows)
      ensures store.rows == if exists k :: 0 <= k < |fates| && fates[k] != NotDone
                            then Store.FlushRow(old(store.rows), id, results) else old(store.rows)
      ensures ok ==> id in store.rows && store.rows[id].Completed?
                     && (old(store.rows[id]).Completed? ==> store.rows == old(store.rows))
    {
      var backoff := 100;
      var k := 0;
      while k < |fates|
        invariant k <= |fates| && 100 <= backoff <= 3000
        invariant id in old(store.rows) ==> Answered !in fates[..k]
        invariant store.rows == if exists j :: 0 <= j < k && fates[j] != NotDone
                                then Store.FlushRow(old(store.rows), id, results) else old(store.rows)
      {
        if fates[k] != NotDone {
          var reply := store.FlushResults(id, results);
          if fates[k] == Answered && !reply.NotFound? {
            return true;
          }
        }
        k := k + 1;
        backoff := if backoff * 2 > 3000 then 3000 else backoff * 2;
      }
      assert fates[..k] == fates;
      return false;
    }

    method FinishFlush(id: string, ok: bool)
      modifies this
      ensures View() == EndFlush(old(View()), id, ok)
    {
      if id !in polls {
        return;
      }
      if ok {
        polls := polls[id := polls[id].(committed := true)];
      } else {
        polls := polls[id := polls[id].(flushed := false)];
      }
    }

    method CheckPollReady(id: string, now: int, flushOk: bool) returns (completed: bool)
      modifies this
      ensures completed <==> Claims(old(View()), id, now, cfg) && flushOk
      ensures View() == if Claims(old(View()), id, now, cfg)
                        then EndFlush(BeginFlush(old(View()), id, now, cfg), id, flushOk) else old(View())
    {
      var results := ClaimFlush(id, now);
      if results.None? {
        return false;
      }
      FinishFlush(id, flushOk);
      return flushOk;
    }

    // The length of the prefix that may be committed.
    method Committables(q: seq<Pending>) returns (cut: nat)
      ensures cut == CutLength(View(), q)
    {
      cut := 0;
      while cut < |q| && (q[cut].poll == "" || (q[cut].poll in polls && polls[q[cut].poll].committed))
        invariant cut <= |q|
        invariant CutLength(View(), q) == cut + CutLength(View(), q[cut..])
      {
        assert q[cut..][1..] == q[cut + 1..];
        cut := cut + 1;
      }
    }

    /** Takes the committable prefix off a partition's queue, for CommitMessages. */
    method TakeCommittable(p: nat) returns (toCommit: seq<Commit>)
      modifies this
      ensures var q := Queue(old(View()), p);
              toCommit == Commits(q[..CutLength(old(View()), q)]) && View() == Cut(old(View()), p)
    {
      hide CutLength;
      var q := QueueOf(p);
      var cut := Committables(q);
      if cut == 0 {
        return [];
      }
      toCommit := [];
      for i := 0 to cut
        invariant toCommit == Commits(q[..i])
      {
        toCommit := toCommit + [q[i].msg];
      }
      pending := pending[p := q[cut..]];
    }

    // Every poll id some queue still mentions.
    method PollsInUse() returns (inUse: set<string>)
      ensures forall id :: id in inUse <==> InUse(View(), id)
    {
      inUse := {};
      var rest := pending.Keys;
      while exists p :: p in rest
        invariant rest <= pending.Keys
        invariant forall id :: id in inUse <==> Mentioned(pending.Keys - rest, id)
        decreases rest
      {
        var p :| p in rest;
        var q := pending[p];
        ghost var before := inUse;
        for i := 0 to |q|
          invariant forall id :: id in inUse <==>
                      id in before || (id != "" && exists k :: 0 <= k < i && q[k].poll == id)
        {
          if q[i].poll != "" {
            inUse := inUse + {q[i].poll};
          }
        }
        MentionedMore(pending.Keys - rest, p);
        rest := rest - {p};
        assert pending.Keys - rest == (pending.Keys - (rest + {p})) + {p};
      }
      forall id ensures Mentioned(pending.Keys, id) <==> InUse(View(), id) { MentionedIsInUse(id); }
      assert pending.Keys - rest == pending.Keys;
    }

    ghost predicate Mentioned(ps: set<nat>, id: string)
      reads this
      requires ps <= pending.Keys
    {
      id != "" && exists p, k :: p in ps && 0 <= k < |pending[p]| && pending[p][k].poll == id
    }

    lemma MentionedMore(ps: set<nat>, p: nat)
      requires ps <= pending.Keys && p in pending
      ensures forall id :: Mentioned(ps + {p}, id) <==>
                Mentioned(ps, id) || (id != "" && exists k :: 0 <= k < |pending[p]| && pending[p][k].poll == id)
    {
    }

    lemma MentionedIsInUse(id: string)
      ensures Mentioned(pending.Keys, id) <==> InUse(View(), id)
    {
      if Mentioned(pending.Keys, id) {
        var p, k :| p in pending && 0 <= k < |pending[p]| && pending[p][k].poll == id;
        assert View().pending[p][k].poll == id;
      }
      if InUse(View(), id) {
        var p :| p in View().pending && exists i | 0 <= i < |View().pending[p]| :: View().pending[p][i].poll == id;
        var i :| 0 <= i < |View().pending[p]| && View().pending[p][i].poll == id;
        assert p in pending && pending[p][i].poll == id;
      }
    }

    method CleanupCommitted()
      modifies this
      ensures View() == Cleanup(old(View()))
    {
      var inUse := PollsInUse();
      polls := map id | id in polls && !(polls[id].committed && id !in inUse) :: polls[id];
    }

    method TryCommit(p: nat, commitOk: bool)
      modifies this
      ensures View() == ConsumerCheck.TryCommit(old(View()), p, commitOk)
    {
      ghost var n := CutLength(View(), Queue(View(), p));
      var toCommit := TakeCommittable(p);
      assert |toCommit| == n;
      if |toCommit| == 0 {
        return;
      }
      if !commitOk {
        return;
      }
      CleanupCommitted();
    }

    /** One message from the log: registered or marked, then checked and committed. */
    method HandleMessage(p: nat, offset: nat, payload: Payload, now: int, env: Env)
      modifies this
      ensures View() == ConsumerCheck.HandleMessage(old(View()), p, offset, payload, now, env, cfg)
    {
      hide CutLength, Register, Cleanup;
      match payload {
        case Malformed => MarkCommittable(p, offset);
        case Good(b) =>
          RegisterBatch(p, offset, b, now);
          EnsureEndsAt(b.poll, env.answers(b.poll), env.learnAt(b.poll));
          var completed := CheckPollReady(b.poll, env.checkAt(b.poll), b.poll in env.flushOk);
      }
      TryCommit(p, p in env.commitOk);
    }

    method CheckOne(id: string, env: Env) returns (completed: bool)
      modifies this
      ensures pending == old(pending)
      ensures completed == Completes(old(View()), id, env, cfg)
      ensures View() == CheckPoll(ConsumerCheck.EnsureEndsAt(old(View()), id, env, cfg), id, env, cfg)
    {
      EnsureEndsAt(id, env.answers(id), env.learnAt(id));
      completed := CheckPollReady(id, env.checkAt(id), id in env.flushOk);
    }

    /** One pass over all polls. The order in which the maps yield polls and partitions is
        arbitrary; OnePassDrains holds for every order. */
    method CheckAllReady(env: Env) returns (ghost ids: seq<string>, ghost ps: seq<nat>)
      modifies this
      ensures Lists(ids, Unflushed(old(View()))) && Lists(ps, old(pending).Keys)
      ensures View() == CheckAll(old(View()), ids, ps, env, cfg)
    {
      hide CheckPoll, Completes, ConsumerCheck.EnsureEndsAt, AnyCompleted, CheckEach, CommitEach;
      ghost var m := View();
      NoneCompletedYet(env);
      var rest := set id | id in polls && !polls[id].flushed;
      ghost var all := rest;
      var partitions: set<nat> := {};
      ids := [];
      while exists id :: id in rest
        invariant rest <= all && all == Unflushed(m)
        invariant Lists(ids, all - rest)
        invariant View() == CheckEach(m, ids, env, cfg)
        invariant pending == m.pending
        invariant partitions == if AnyCompleted(m, ids, env, cfg) then m.pending.Keys else {}
        decreases rest
      {
        var id :| id in rest;
        rest := rest - {id};
        var completed := CheckOne(id, env);
        if completed {
          partitions := partitions + pending.Keys;
        }
        AnyOneMore(m, ids, id, env);
        ids := ids + [id];
      }
      assert all - rest == all;
      ps := CommitAll(partitions, env);
      assert |ps| > 0 ==> ps[0] in ps && ps[0] in partitions;
      if !AnyCompleted(m, ids, env, cfg) {
        assert ps == [];
        ps := ListOf(m.pending.Keys);
      }
    }

    lemma NoneCompletedYet(env: Env)
      ensures forall m :: CheckEach(m, [], env, cfg) == m && !AnyCompleted(m, [], env, cfg)
      ensures forall m :: CommitEach(m, [], env) == m
    {
    }

    lemma AnyOneMore(m: Mem, ids: seq<string>, id: string, env: Env)
      ensures AnyCompleted(m, ids + [id], env, cfg)
         <==> AnyCompleted(m, ids, env, cfg) || Completes(CheckEach(m, ids, env, cfg), id, env, cfg)
      ensures var r := CheckEach(m, ids, env, cfg);
              CheckEach(m, ids + [id], env, cfg) == CheckPoll(ConsumerCheck.EnsureEndsAt(r, id, env, cfg), id, env, cfg)
    {
      var more := ids + [id];
      assert more[..|ids|] == ids;
      assert forall k :: 0 <= k < |ids| ==> more[..k] == ids[..k] && more[k] == ids[k];
      if AnyCompleted(m, ids, env, cfg) {
        var k :| 0 <= k < |ids| && Completes(CheckEach(m, ids[..k], env, cfg), ids[k], env, cfg);
        assert Completes(CheckEach(m, more[..k], env, cfg), more[k], env, cfg);
      }
      if Completes(CheckEach(m, ids, env, cfg), id, env, cfg) {
        assert Completes(CheckEach(m, more[..|ids|], env, cfg), more[|ids|], env, cfg);
      }
    }

    ghost function ListOf(xs: set<nat>): (s: seq<nat>)
      ensures Lists(s, xs)
    {
      if x :| x in xs then ListOf(xs - {x}) + [x] else []
    }

    // The commits at the end of a pass.
    method CommitAll(partitions: set<nat>, env: Env) returns (ghost ps: seq<nat>)
      modifies this
      ensures Lists(ps, partitions)
      ensures View() == CommitEach(old(View()), ps, env)
    {
      var rest := partitions;
      ps := [];
      while exists p :: p in rest
        invariant rest <= partitions
        invariant Lists(ps, partitions - rest)
        invariant View() == CommitEach(old(View()), ps, env)
        decreases rest
      {
        var p :| p in rest;
        rest := rest - {p};
        TryCommit(p, p in env.commitOk);
        assert (ps + [p])[..|ps|] == ps;
        ps := ps + [p];
      }
      assert partitions - rest == partitions;
    }
  }
}
