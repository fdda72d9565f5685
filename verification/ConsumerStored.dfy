/** What a poll's row ends up holding: the results of all messages of the poll that had been
    read when the flush was claimed. */
module ConsumerStored {
  import opened Basics
  import opened Service
  import opened Votes
  import opened Totals
  import opened ConsumerState
  import opened ConsumerRuns
  import Store

  predicate HasResults(w: World, id: string) {
    id in w.rows && w.rows[id].Completed?
  }

  // The i-th event is a check of the poll by an idle goroutine, and claims its flush.
  ghost predicate ClaimsAt(w: World, es: seq<Event>, i: nat, id: string)
    requires Inv(w)
  {
    && i < |es| && es[i].Begin? && es[i].id == id
    && var at := Run(w, es[..i]);
       PcOf(at, es[i].t) == Idle && Claims(at.mem, id, es[i].now, at.cfg)
  }

  // r is the fold of all that was read of the poll when the i-th event claimed it.
  ghost predicate BuiltAt(w: World, es: seq<Event>, i: nat, id: string, r: Results)
    requires Inv(w)
  {
    && ClaimsAt(w, es, i, id)
    && var at := Run(w, es[..i]);
       Shaped(at) && r == ResultsOf(AbsorbAll(ReadOf(at, id)))
  }

  ghost predicate Built(w: World, es: seq<Event>, id: string, r: Results)
    requires Inv(w)
  {
    exists i: nat :: BuiltAt(w, es, i, id, r)
  }

  // A flush that can still write was built so: one begun after a first success finds the row
  // completed, and before that the tally is the fold of all that was read.
  ghost predicate HoldsBuilt(w: World, es: seq<Event>, t: nat)
    requires Inv(w)
  {
    var pc := PcOf(Run(w, es), t);
    pc.Flushing? && pc.poll != "" ==> HasResults(Run(w, es), pc.poll) || Built(w, es, pc.poll, pc.results)
  }

  ghost predicate Stored(w: World, es: seq<Event>)
    requires Inv(w)
  {
    && (forall id :: id in Run(w, es).flushedPolls ==> HasResults(Run(w, es), id))
    && (forall t: nat :: HoldsBuilt(w, es, t))
    && (forall id :: id != "" && HasResults(Run(w, es), id) ==> Built(w, es, id, Run(w, es).rows[id].results))
  }

  lemma BuiltStays(w: World, es: seq<Event>, e: Event, id: string, r: Results)
    requires Inv(w) && Built(w, es, id, r)
    ensures Built(w, es + [e], id, r)
  {
    hide Inv, Run, Claims, ReadOf, Shaped;
    var i: nat :| BuiltAt(w, es, i, id, r);
    assert (es + [e])[..i] == es[..i] && (es + [e])[i] == es[i];
    assert BuiltAt(w, es + [e], i, id, r);
  }

  lemma ClaimIsBuilt(w: World, es: seq<Event>, e: Event, id: string)
    requires Inv(w) && e.Begin? && e.id == id != "" && id !in Run(w, es).flushedPolls
    requires PcOf(Run(w, es), e.t) == Idle && Claims(Run(w, es).mem, id, e.now, Run(w, es).cfg)
    ensures id in Run(w, es).mem.polls && Built(w, es + [e], id, ResultsOf(Run(w, es).mem.polls[id].tally))
  {
    hide Run, PartitionOk, StateOk, ThreadOk, RowOk, Bookkept, ForPoll, AbsorbAll, ResultsOf;
    var at := Run(w, es);
    assert TallyOk(at, id);
    assert (es + [e])[..|es|] == es && (es + [e])[|es|] == e;
    assert BuiltAt(w, es + [e], |es|, id, ResultsOf(at.mem.polls[id].tally));
  }

  lemma FlushedHaveResults(w: World, e: Event, id: string)
    requires Shaped(w) && (id in w.flushedPolls ==> HasResults(w, id)) && id in Apply(w, e).flushedPolls
    ensures HasResults(Apply(w, e), id)
  {
    hide ForPoll, AbsorbAll, ResultsOf;
    hide Claims, BeginFlush, EndFlush, Learn, Cut, CutLength, Commits, Cleanup, HandleNext, LastOffset;
    if id in w.flushedPolls {
      CompletedRowsStay(w, e, id);
    }
  }

  lemma OnlyBeginFlushes(w: World, e: Event, t: nat)
    requires Shaped(w) && PcOf(Apply(w, e), t).Flushing? && PcOf(Apply(w, e), t) != PcOf(w, t)
    ensures e.Begin? && e.t == t && PcOf(w, t) == Idle && Claims(w.mem, e.id, e.now, w.cfg)
    ensures e.id in w.mem.polls && PcOf(Apply(w, e), t).poll == e.id
    ensures PcOf(Apply(w, e), t).results == ResultsOf(w.mem.polls[e.id].tally)
    ensures Apply(w, e).rows == w.rows
  {
    hide ResultsOf, Ready, BeginFlush, EndFlush, Learn, Cut, CutLength, Commits, Cleanup, HandleNext, LastOffset;
  }

  // Nothing but the attempt of a goroutine inside its flush writes results.
  lemma OnlyAttemptWrites(w: World, e: Event, id: string)
    requires Shaped(w) && HasResults(Apply(w, e), id) && !HasResults(w, id)
    ensures e.Attempt? && PcOf(w, e.t).Flushing? && PcOf(w, e.t).poll == id
    ensures Apply(w, e).rows[id].results == PcOf(w, e.t).results
  {
    hide ResultsOf, Claims, BeginFlush, EndFlush, Learn, Cut, CutLength, Commits, Cleanup, HandleNext, LastOffset;
  }

  lemma ThreadKeepsBuilt(w: World, es: seq<Event>, e: Event, t: nat)
    requires Inv(w) && Stored(w, es)
    ensures HoldsBuilt(w, es + [e], t)
  {
    hide Inv, Run, Apply, Claims, Built, ResultsOf;
    var (at, after) := (Run(w, es), Run(w, es + [e]));
    ShapedByInv(at);
    RunMore(w, es, e);
    var pc := PcOf(after, t);
    if pc.Flushing? && pc.poll != "" {
      if HasResults(at, pc.poll) {
        CompletedRowsStay(at, e, pc.poll);
      } else if PcOf(at, t) != pc {
        OnlyBeginFlushes(at, e, t);
        ClaimIsBuilt(w, es, e, pc.poll);
      } else {
        assert HoldsBuilt(w, es, t);
        BuiltStays(w, es, e, pc.poll, pc.results);
      }
    }
  }

  lemma RowKeepsBuilt(w: World, es: seq<Event>, e: Event, id: string)
    requires Inv(w) && Stored(w, es) && id != "" && HasResults(Run(w, es + [e]), id)
    ensures Built(w, es + [e], id, Run(w, es + [e]).rows[id].results)
  {
    hide Inv, Run, Apply, Claims, Built, ResultsOf;
    var at := Run(w, es);
    ShapedByInv(at);
    RunMore(w, es, e);
    if HasResults(at, id) {
      CompletedRowsStay(at, e, id);
      BuiltStays(w, es, e, id, at.rows[id].results);
    } else {
      OnlyAttemptWrites(at, e, id);
      assert HoldsBuilt(w, es, e.t);
      BuiltStays(w, es, e, id, PcOf(at, e.t).results);
    }
  }

  /** One more step of any goroutine, failure or crash keeps: what can be written, and what is
      written, was built from all that had been read when it was claimed. */
  lemma StepKeepsStored(w: World, es: seq<Event>, e: Event)
    requires Inv(w) && Stored(w, es)
    ensures Stored(w, es + [e])
  {
    hide Inv, Run, Apply, Built, HoldsBuilt;
    var (at, after) := (Run(w, es), Run(w, es + [e]));
    ShapedByInv(at);
    RunMore(w, es, e);
    forall id | id in after.flushedPolls ensures HasResults(after, id) { FlushedHaveResults(at, e, id); }
    forall t: nat ensures HoldsBuilt(w, es + [e], t) { ThreadKeepsBuilt(w, es, e, t); }
    forall id | id != "" && HasResults(after, id)
      ensures Built(w, es + [e], id, after.rows[id].results)
    {
      RowKeepsBuilt(w, es, e, id);
    }
  }

  lemma {:induction false} RunKeepsStored(w: World, es: seq<Event>)
    requires Inv(w) && Stored(w, [])
    ensures Stored(w, es)
  {
    hide Stored, Inv;
    if es == [] {
    } else {
      RunKeepsStored(w, es[..|es| - 1]);
      StepKeepsStored(w, es[..|es| - 1], es[|es| - 1]);
      assert es == es[..|es| - 1] + [es[|es| - 1]];
    }
  }

  lemma InitialStored(w0: World)
    requires Initial(w0)
    ensures Inv(w0) && Stored(w0, [])
  {
    InitialInv(w0);
  }

  /** What is stored for a poll, whichever flush of whichever life of the process wrote it, is the
      results of exactly the messages that had been read when some check claimed that flush; its
      total is the number of their distinct voters. */
  lemma StoredIsWhatWasRead(w0: World, es: seq<Event>, id: string) returns (i: nat)
    requires Initial(w0) && id != "" && HasResults(Reach(w0, es), id)
    ensures Inv(w0) && ClaimsAt(w0, es, i, id)
    ensures var (at, r) := (Reach(w0, es[..i]), Reach(w0, es).rows[id].results);
            && Shaped(at)
            && r == ResultsOf(AbsorbAll(ReadOf(at, id)))
            && r.total == |FingerprintsOf(VotesOf(ReadOf(at, id)))|
  {
    hide Inv, Run, AbsorbAll, ReadOf, Claims;
    InitialStored(w0);
    RunKeepsStored(w0, es);
    i :| BuiltAt(w0, es, i, id, Reach(w0, es).rows[id].results);
    TotalIsDistinctFingerprints(ReadOf(Reach(w0, es[..i]), id));
  }
}
