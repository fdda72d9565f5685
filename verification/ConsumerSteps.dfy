/** The consumer's methods as runs: what handleMessage and checkAllReady do from end to end is what
    one goroutine's events do to the world. And what a sequence of end-time lookups learns. */
module ConsumerSteps {
  import opened Basics
  import opened Service
  import opened Votes
  import opened Totals
  import opened ConsumerState
  import opened ConsumerRuns
  import opened ConsumerCheck
  import Store

  // The goroutine starts and ends outside of everything, the others have not moved.
  ghost predicate Alone(w: World, w': World, t: nat) {
    && Shaped(w') && PcOf(w', t) == Idle && (forall u: nat :: u != t ==> PcOf(w', u) == PcOf(w, u))
    && w'.cfg == w.cfg && w'.log == w.log && w'.route == w.route
    && (forall id :: id in w'.rows <==> id in w.rows)
  }

  lemma AloneTwice(w: World, w1: World, w2: World, t: nat)
    requires Alone(w, w1, t) && Alone(w1, w2, t)
    ensures Alone(w, w2, t)
  {
    hide Shaped, PcOf;
  }

  lemma AloneAtFirst(w: World, t: nat)
    requires Inv(w) && PcOf(w, t) == Idle
    ensures Alone(w, w, t)
  {
    hide PcOf;
  }

  /** ensureEndsAt: one lookup, unless the end time is known or the poll is not. */
  lemma EnsureEndsAtIsARun(w: World, t: nat, id: string, env: Env) returns (es: seq<Event>)
    requires Inv(w) && PcOf(w, t) == Idle
    ensures es == if id in w.mem.polls && !w.mem.polls[id].endsAtKnown
                  then [Discover(id, env.answers(id), env.learnAt(id))] else []
    ensures var w' := Run(w, es);
            Alone(w, w', t) && w'.fetched == w.fetched && w'.mem == EnsureEndsAt(w.mem, id, env, w.cfg)
  {
    hide Inv, Run, Learn;
    ShapedByInv(w);
    AtFirst(w);
    if id in w.mem.polls && !w.mem.polls[id].endsAtKnown {
      var e := Discover(id, env.answers(id), env.learnAt(id));
      es := [e];
      RunMore(w, [], e);
      assert [] + [e] == [e];
    } else {
      es := [];
    }
  }

  lemma ClaimAndFlush(w: World, t: nat, id: string, now: int) returns (es: seq<Event>)
    requires Inv(w) && PcOf(w, t) == Idle && Claims(w.mem, id, now, w.cfg) && id in w.rows
    ensures es == [] + [Begin(t, id, now)] + [Attempt(t, Answered)] + [Confirm(t)]
    ensures var w' := Run(w, es);
            && Alone(w, w', t) && w'.fetched == w.fetched
            && w'.mem == EndFlush(BeginFlush(w.mem, id, now, w.cfg), id, true)
  {
    hide Inv, Run, Apply, Claims, BeginFlush, EndFlush, ResultsOf;
    es := [] + [Begin(t, id, now)] + [Attempt(t, Answered)] + [Confirm(t)];
    ShapedByInv(w);
    RunThree(w, Begin(t, id, now), Attempt(t, Answered), Confirm(t));
    BeginAlone(w, id, now, t);
    var w1 := Apply(w, Begin(t, id, now));
    var uid := w.mem.polls[id].uid;
    AnsweredAnyway(w1, t, id, uid, ResultsOf(w.mem.polls[id].tally));
    ConfirmAlone(Apply(w1, Attempt(t, Answered)), t, id, uid);
  }

  // A row that is there answers success, whoever completed it.
  lemma AnsweredAnyway(w: World, t: nat, id: string, uid: nat, r: Results)
    requires Shaped(w) && PcOf(w, t) == Flushing(id, uid, r) && id in w.rows
    ensures var w' := Apply(w, Attempt(t, Answered));
            && Shaped(w') && SameLog(w, w') && w'.rows.Keys == w.rows.Keys
            && w'.threads == w.threads[t := Flushed(id, uid)] && w'.mem == w.mem
  {
  }

  lemma ClaimAndFail(w: World, t: nat, id: string, now: int) returns (es: seq<Event>)
    requires Inv(w) && PcOf(w, t) == Idle && Claims(w.mem, id, now, w.cfg)
    ensures es == [] + [Begin(t, id, now)] + [Abort(t)]
    ensures var w' := Run(w, es);
            && Alone(w, w', t) && w'.fetched == w.fetched
            && w'.mem == EndFlush(BeginFlush(w.mem, id, now, w.cfg), id, false)
  {
    hide Inv, Run, Apply, Claims, BeginFlush, EndFlush, ResultsOf;
    es := [] + [Begin(t, id, now)] + [Abort(t)];
    ShapedByInv(w);
    AtFirst(w);
    BeginAlone(w, id, now, t);
    RunMore(w, [], Begin(t, id, now));
    RunMore(w, [] + [Begin(t, id, now)], Abort(t));
    AbortAlone(Apply(w, Begin(t, id, now)), t, id, w.mem.polls[id].uid, ResultsOf(w.mem.polls[id].tally));
  }

  lemma AbortAlone(w: World, t: nat, id: string, uid: nat, r: Results)
    requires Shaped(w) && PcOf(w, t) == Flushing(id, uid, r)
    ensures var w' := Apply(w, Abort(t));
            && Shaped(w') && SameLog(w, w') && w'.rows == w.rows
            && w'.threads == w.threads[t := Idle] && w'.mem == EndFlush(w.mem, id, false)
  {
    hide EndFlush;
  }

  /** checkPollReady: claimed, then flushed and confirmed, or given up. */
  lemma CheckPollIsARun(w: World, t: nat, id: string, env: Env) returns (es: seq<Event>)
    requires Inv(w) && PcOf(w, t) == Idle && (id in env.flushOk ==> id in w.rows)
    ensures es == if !Claims(w.mem, id, env.checkAt(id), w.cfg) then []
                  else [] + [Begin(t, id, env.checkAt(id))]
                       + if id in env.flushOk then [Attempt(t, Answered)] + [Confirm(t)] else [Abort(t)]
    ensures var w' := Run(w, es);
            Alone(w, w', t) && w'.fetched == w.fetched && w'.mem == CheckPoll(w.mem, id, env, w.cfg)
  {
    hide Inv, Run, Claims, BeginFlush, EndFlush, Alone;
    AtFirst(w);
    var now := env.checkAt(id);
    if !Claims(w.mem, id, now, w.cfg) {
      es := [];
      AloneAtFirst(w, t);
    } else if id in env.flushOk {
      es := ClaimAndFlush(w, t, id, now);
      assert es == [] + [Begin(t, id, now)] + ([Attempt(t, Answered)] + [Confirm(t)]);
    } else {
      es := ClaimAndFail(w, t, id, now);
    }
  }

  lemma TakeAndCommit(w: World, t: nat, p: nat, applied: bool, ok: bool)
    requires Inv(w) && PcOf(w, t) == Idle && CutLength(w.mem, Queue(w.mem, p)) > 0
    ensures var w' := Run(w, [] + [TakePrefix(t, p)] + [Commit(t, applied, ok)]);
            && Shaped(w') && w'.cfg == w.cfg && w'.log == w.log && w'.route == w.route && w'.rows == w.rows
            && w'.fetched == w.fetched && w'.mem == Cut(w.mem, p)
            && PcOf(w', t) == (if ok then Cleaning else Idle)
            && forall u: nat :: u != t ==> PcOf(w', u) == PcOf(w, u)
  {
    hide Inv, Run, Apply, CutLength, Cut;
    ShapedByInv(w);
    AtFirst(w);
    TakeSteps(w, t, p);
    RunMore(w, [], TakePrefix(t, p));
    RunMore(w, [] + [TakePrefix(t, p)], Commit(t, applied, ok));
    CommitSteps(Run(w, [] + [TakePrefix(t, p)]), t, applied, ok);
  }

  /** tryCommit: the committable prefix is taken and committed, and only after success, whatever
      became of the offsets, are polls forgotten. */
  lemma TryCommitIsARun(w: World, t: nat, p: nat, applied: bool, ok: bool) returns (es: seq<Event>)
    requires Inv(w) && PcOf(w, t) == Idle
    ensures es == if CutLength(w.mem, Queue(w.mem, p)) == 0 then []
                  else [] + [TakePrefix(t, p)] + [Commit(t, applied, ok)] + if ok then [Clean(t)] else []
    ensures var w' := Run(w, es);
            Alone(w, w', t) && w'.fetched == w.fetched && w'.mem == TryCommit(w.mem, p, ok)
    ensures !ok ==> Run(w, es).mem.polls == w.mem.polls
  {
    hide Inv, Run, Apply, CutLength, Cleanup;
    AtFirst(w);
    if CutLength(w.mem, Queue(w.mem, p)) == 0 {
      es := [];
      AloneAtFirst(w, t);
    } else {
      TakeAndCommit(w, t, p, applied, ok);
      var committed := [] + [TakePrefix(t, p)] + [Commit(t, applied, ok)];
      if ok {
        es := committed + [Clean(t)];
        RunMore(w, committed, Clean(t));
        CleanSteps(Run(w, committed), t);
      } else {
        es := committed + [];
        assert es == committed;
      }
    }
  }

  lemma {:induction false} LastOffsetIsLast(cs: seq<Commit>)
    ensures match LastOffset(cs)
            case None => forall i :: 0 <= i < |cs| ==> cs[i] == Zero
            case Some(o) =>
              exists i :: 0 <= i < |cs| && cs[i].At? && cs[i].offset == o && forall k :: i < k < |cs| ==> cs[k] == Zero
  {
    if cs == [] {
    } else if cs[|cs| - 1].At? {
    } else {
      var init := cs[..|cs| - 1];
      LastOffsetIsLast(init);
      if LastOffset(init).Some? {
        var i :| 0 <= i < |init| && init[i].At? && init[i].offset == LastOffset(init).value
                 && forall k :: i < k < |init| ==> init[k] == Zero;
        assert cs[i] == init[i];
        assert forall k :: i < k < |init| ==> cs[k] == init[k];
      }
    }
  }

  // The commits of a cut prefix, as the log has them.
  lemma CommitsOfTheCut(w: World, p: nat)
    requires Inv(w) && p < |w.log| && p < |w.fetched|
    ensures var (q, n) := (Queue(w.mem, p), CutLength(w.mem, Queue(w.mem, p)));
            var b := w.fetched[p] - |q|;
            && 0 <= b && b + n <= |w.log[p]|
            && forall i :: 0 <= i < n ==>
                 Commits(q[..n])[i] == if w.log[p][b + i].Good? then At(p, b + i) else Zero
  {
    hide CutLength, StateOk, ThreadOk, TallyOk, RowOk, Bookkept;
    assert PartitionOk(w, p);
    var q := Queue(w.mem, p);
    assert forall i :: 0 <= i < |q| ==> EntryOf(q[i], p, Boundary(w, p) + i, w.log[p]);
  }

  /** Where a commit moves to: past every real message of the prefix that was cut, to just behind
      the last of them, and nowhere if all of it was malformed; a commit that was not applied
      moves nothing. */
  lemma CommitMovesThePosition(w: World, t: nat, p: nat, applied: bool, ok: bool)
    requires Inv(w) && PcOf(w, t) == Idle && CutLength(w.mem, Queue(w.mem, p)) > 0
    ensures p < |w.log| && p < |w.fetched| && p < |w.position|
    ensures var w' := Run(w, [] + [TakePrefix(t, p)] + [Commit(t, applied, ok)]);
            var b := w.fetched[p] - |Queue(w.mem, p)|; var end := b + CutLength(w.mem, Queue(w.mem, p));
            && 0 <= b <= end <= |w.log[p]| && |w'.position| == |w.position|
            && (forall q :: 0 <= q < |w.position| && (q != p || !applied) ==> w'.position[q] == w.position[q])
            && (applied ==>
                  && (forall o :: b <= o < end && w.log[p][o].Good? ==> o < w'.position[p])
                  && (w'.position[p] == w.position[p]
                      || (b < w'.position[p] <= end && w.log[p][w'.position[p] - 1].Good?))
                  && ((forall o :: b <= o < end ==> w.log[p][o].Malformed?) ==> w'.position[p] == w.position[p]))
  {
    hide Inv, Run, Apply, CutLength, Cut, LastOffset, Commits;
    ShapedByInv(w);
    QueuesAreOfPartitions(w, p);
    AtFirst(w);
    TakeSteps(w, t, p);
    RunMore(w, [], TakePrefix(t, p));
    RunMore(w, [] + [TakePrefix(t, p)], Commit(t, applied, ok));
    CommitsOfTheCut(w, p);
    var q, n := Queue(w.mem, p), CutLength(w.mem, Queue(w.mem, p));
    var cs := Commits(q[..n]);
    CommitsLength(q[..n]);
    LastOffsetIsLast(cs);
    CommitApplied(Run(w, [] + [TakePrefix(t, p)]), t, p, cs, applied, ok);
    var b := w.fetched[p] - |q|;
    forall o | b <= o < b + n && w.log[p][o].Good?
      ensures LastOffset(cs).Some? && o <= LastOffset(cs).value
    {
      assert cs[o - b] == At(p, o);
    }
    if LastOffset(cs).Some? {
      var i :| 0 <= i < |cs| && cs[i].At? && cs[i].offset == LastOffset(cs).value;
      assert cs[i] == At(p, b + i);
    }
  }

  lemma CommitsLength(q: seq<Pending>)
    ensures |Commits(q)| == |q|
  {
  }

  lemma QueuesAreOfPartitions(w: World, p: nat)
    requires Inv(w) && CutLength(w.mem, Queue(w.mem, p)) > 0
    ensures p < |w.log| && p < |w.fetched| && p < |w.position|
  {
    hide CutLength, PartitionOk, StateOk, ThreadOk, TallyOk, RowOk;
    assert Queue(w.mem, p) != [];
  }

  lemma CommitApplied(w: World, t: nat, p: nat, cs: seq<Commit>, applied: bool, ok: bool)
    requires Shaped(w) && PcOf(w, t) == Committing(p, cs) && p < |w.position|
    ensures Apply(w, Commit(t, applied, ok)).position
         == if applied && LastOffset(cs).Some? then w.position[p := LastOffset(cs).value + 1] else w.position
  {
    hide LastOffset;
  }

  lemma RegisterIsARun(w: World, t: nat, p: nat, now: int) returns (es: seq<Event>)
    requires Inv(w) && PcOf(w, t) == Idle && p < |w.log| && p < |w.fetched| && w.fetched[p] < |w.log[p]|
    ensures es == [Handle(p, now)]
    ensures var w' := Run(w, es);
            && Alone(w, w', t) && w'.fetched == w.fetched[p := w.fetched[p] + 1]
            && w'.mem == match w.log[p][w.fetched[p]]
                         case Malformed => Mark(w.mem, p, w.fetched[p])
                         case Good(b) => Register(w.mem, p, w.fetched[p], b, now)
  {
    hide Inv, Run, Register, Mark;
    es := [Handle(p, now)];
    ShapedByInv(w);
    AtFirst(w);
    RunMore(w, [], Handle(p, now));
    assert [] + [Handle(p, now)] == [Handle(p, now)];
  }

  lemma ThenRun(w: World, a: seq<Event>, b: seq<Event>, t: nat)
    requires Inv(w) && Alone(w, Run(w, a), t) && Alone(Run(w, a), Run(Run(w, a), b), t)
    ensures Run(w, a + b) == Run(Run(w, a), b) && Alone(w, Run(w, a + b), t)
  {
    hide Inv, Run, Alone;
    RunAppend(w, a, b);
    AloneTwice(w, Run(w, a), Run(Run(w, a), b), t);
  }

  /** handleMessage, with nothing in between, is a run of its goroutine: the next message of the
      partition is registered, its poll's end time looked up, the poll checked, and the
      partition committed, in this order. */
  lemma HandleMessageIsARun(w: World, t: nat, p: nat, now: int, env: Env, applied: bool) returns (es: seq<Event>)
    requires Inv(w) && PcOf(w, t) == Idle && p < |w.log| && p < |w.fetched| && w.fetched[p] < |w.log[p]|
    requires forall id :: id in env.flushOk ==> id in w.rows
    ensures var w' := Run(w, es);
            && Alone(w, w', t) && w'.fetched == w.fetched[p := w.fetched[p] + 1]
            && w'.mem == HandleMessage(w.mem, p, w.fetched[p], w.log[p][w.fetched[p]], now, env, w.cfg)
    ensures es != [] && es[0] == Handle(p, now)
  {
    hide Inv, Run, Register, Mark, EnsureEndsAt, CheckPoll, TryCommit, Claims, CutLength;
    es := RegisterIsARun(w, t, p, now);
    match w.log[p][w.fetched[p]] {
      case Malformed =>
      case Good(b) =>
        var w1 := Run(w, es);
        var learn := EnsureEndsAtIsARun(w1, t, b.poll, env);
        ThenRun(w, es, learn, t);
        es := es + learn;
        var check := CheckPollIsARun(Run(w, es), t, b.poll, env);
        ThenRun(w, es, check, t);
        es := es + check;
    }
    var commit := TryCommitIsARun(Run(w, es), t, p, applied, p in env.commitOk);
    ThenRun(w, es, commit, t);
    es := es + commit;
  }

  lemma {:induction false} CheckEachIsARun(w: World, t: nat, ids: seq<string>, env: Env) returns (es: seq<Event>)
    requires Inv(w) && PcOf(w, t) == Idle && forall id :: id in env.flushOk ==> id in w.rows
    ensures var w' := Run(w, es);
            Alone(w, w', t) && w'.fetched == w.fetched && w'.mem == CheckEach(w.mem, ids, env, w.cfg)
  {
    hide Inv, Run, EnsureEndsAt, CheckPoll, Claims;
    if ids == [] {
      es := [];
      AtFirst(w);
      AloneAtFirst(w, t);
    } else {
      var init, id := ids[..|ids| - 1], ids[|ids| - 1];
      es := CheckEachIsARun(w, t, init, env);
      var learn := EnsureEndsAtIsARun(Run(w, es), t, id, env);
      ThenRun(w, es, learn, t);
      es := es + learn;
      var check := CheckPollIsARun(Run(w, es), t, id, env);
      ThenRun(w, es, check, t);
      es := es + check;
    }
  }

  lemma {:induction false} CommitEachIsARun(w: World, t: nat, ps: seq<nat>, env: Env, applied: bool)
    returns (es: seq<Event>)
    requires Inv(w) && PcOf(w, t) == Idle
    ensures var w' := Run(w, es);
            Alone(w, w', t) && w'.fetched == w.fetched && w'.mem == CommitEach(w.mem, ps, env)
  {
    hide Inv, Run, TryCommit, CutLength;
    if ps == [] {
      es := [];
      AtFirst(w);
      AloneAtFirst(w, t);
    } else {
      var init, p := ps[..|ps| - 1], ps[|ps| - 1];
      es := CommitEachIsARun(w, t, init, env, applied);
      var commit := TryCommitIsARun(Run(w, es), t, p, applied, p in env.commitOk);
      ThenRun(w, es, commit, t);
      es := es + commit;
    }
  }

  /** checkAllReady, with nothing in between, is a run of its goroutine too. */
  lemma CheckAllIsARun(w: World, t: nat, ids: seq<string>, ps: seq<nat>, env: Env, applied: bool)
    returns (es: seq<Event>)
    requires Inv(w) && PcOf(w, t) == Idle && forall id :: id in env.flushOk ==> id in w.rows
    ensures var w' := Run(w, es);
            Alone(w, w', t) && w'.fetched == w.fetched && w'.mem == CheckAll(w.mem, ids, ps, env, w.cfg)
  {
    hide Inv, Run, CheckEach, CommitEach, AnyCompleted;
    es := CheckEachIsARun(w, t, ids, env);
    if AnyCompleted(w.mem, ids, env, w.cfg) {
      var commit := CommitEachIsARun(Run(w, es), t, ps, env, applied);
      ThenRun(w, es, commit, t);
      es := es + commit;
    }
  }

  // ---- What lookups learn ----

  // ensureEndsAt called again and again, with whatever answers and clock readings come.
  function AskAgain(m: Mem, id: string, envs: seq<Env>, cfg: Config): Mem {
    if envs == [] then m else EnsureEndsAt(AskAgain(m, id, envs[..|envs| - 1], cfg), id, envs[|envs| - 1], cfg)
  }

  // The service knows the poll, or knows that there is none.
  predicate Settles(answer: Answer) {
    answer.Found? || answer.error == NotFound
  }

  // The first settling answer, or their number if there is none.
  function FirstSettled(id: string, envs: seq<Env>): (i: nat)
    ensures i <= |envs| && (forall k :: 0 <= k < i ==> !Settles(envs[k].answers(id)))
    ensures i < |envs| ==> Settles(envs[i].answers(id))
  {
    if envs == [] then 0
    else
      var i := FirstSettled(id, envs[..|envs| - 1]);
      if i < |envs| - 1 || Settles(envs[|envs| - 1].answers(id)) then i else |envs|
  }

  /** The service is asked again and again exactly until it has settled the matter: outages before
      that only put a provisional deadline, the first one's, and the first settling answer puts
      the end time for good, the poll's own or a deadline from then on. */
  lemma {:induction false} LookupsLearn(m: Mem, id: string, envs: seq<Env>, cfg: Config)
    requires id in m.polls && !m.polls[id].endsAtKnown && m.polls[id].endsAt == None
    ensures var (i, m') := (FirstSettled(id, envs), AskAgain(m, id, envs, cfg));
            && m'.polls.Keys == m.polls.Keys
            && (m'.polls[id].endsAtKnown <==> i < |envs|)
            && m'.polls[id].endsAt
               == (if i < |envs| then
                     if envs[i].answers(id).Found? then envs[i].answers(id).poll.endsAt
                     else Some(envs[i].learnAt(id) + cfg.closeHardTmo)
                   else if envs == [] then None
                   else Some(envs[0].learnAt(id) + cfg.closeHardTmo))
  {
    if envs == [] {
    } else {
      var init := envs[..|envs| - 1];
      LookupsLearn(m, id, init, cfg);
      var i := FirstSettled(id, init);
      assert i < |init| ==> init[i] == envs[i];
      assert init != [] ==> init[0] == envs[0];
    }
  }

  /** A lookup touches nothing of a poll's state but its end time, and no other poll's; once the end
      time is known it changes nothing at all. */
  lemma LookupsTouchTheEndTime(m: Mem, id: string, env: Env, cfg: Config)
    requires id in m.polls
    ensures var (st, m') := (m.polls[id], EnsureEndsAt(m, id, env, cfg));
            && m'.pending == m.pending && m'.created == m.created && m'.polls.Keys == m.polls.Keys
            && (forall other :: other in m.polls && other != id ==> m'.polls[other] == m.polls[other])
            && m'.polls[id] == st.(endsAt := m'.polls[id].endsAt, endsAtKnown := m'.polls[id].endsAtKnown)
            && (st.endsAtKnown ==> m' == m)
  {
  }
}
