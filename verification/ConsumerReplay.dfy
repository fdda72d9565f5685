/** Starting over: how long a poll has been cooling, what a replay of the log after a crash
    claims and stores, and what a failed commit leaves behind. */
module ConsumerReplay {
  import opened Basics
  import opened Service
  import opened Votes
  import opened Totals
  import opened ConsumerState
  import opened ConsumerRuns
  import opened ConsumerStored
  import opened ConsumerCheck
  import Store

  // ---- Cooling ----

  // The event registers another poll's message while this one waits for its flush.
  predicate Cools(w: World, e: Event, id: string) {
    && e.Handle? && e.p < |w.log| && e.p < |w.fetched| && w.fetched[e.p] < |w.log[e.p]|
    && w.log[e.p][w.fetched[e.p]].Good? && w.log[e.p][w.fetched[e.p]].batch.poll != id
    && id in w.mem.polls && !w.mem.polls[id].flushed
  }

  ghost function Coolings(w: World, es: seq<Event>, id: string): nat
    requires Inv(w)
  {
    if es == [] then 0
    else Coolings(w, es[..|es| - 1], id) + if Cools(Run(w, es[..|es| - 1]), es[|es| - 1], id) then 1 else 0
  }

  lemma RegisterCools(m: Mem, p: nat, offset: nat, b: Batch, now: int, id: string)
    ensures var m' := Register(m, p, offset, b, now);
            id in m'.polls ==>
              || (id !in m.polls && m'.polls[id].uid >= m.created)
              || (id in m.polls && m'.polls[id].uid == m.polls[id].uid
                  && m'.polls[id].staleCount
                     == m.polls[id].staleCount + if b.poll != id && !m.polls[id].flushed then 1 else 0)
  {
    hide Absorb;
  }

  // Only registering a message touches a stale count or makes a state.
  lemma OthersDoNotCool(w: World, e: Event, id: string)
    requires Shaped(w) && !e.Handle? && id in Apply(w, e).mem.polls
    ensures id in w.mem.polls && Apply(w, e).mem.polls[id].uid == w.mem.polls[id].uid
            && Apply(w, e).mem.polls[id].staleCount == w.mem.polls[id].staleCount
  {
    hide Shaped, ResultsOf, CutLength, Commits, LastOffset, Ready, InUse, Store.FlushRow, Store.FlushReply;
  }

  // A step keeps a poll's state, but for the cooling, or the state is a new one.
  lemma CoolingStep(w: World, e: Event, id: string)
    requires Inv(w) && id in Apply(w, e).mem.polls
    ensures var st := Apply(w, e).mem.polls[id];
            || st.uid >= w.mem.created
            || (id in w.mem.polls && st.uid == w.mem.polls[id].uid
                && st.staleCount == w.mem.polls[id].staleCount + if Cools(w, e, id) then 1 else 0)
  {
    hide Inv, Register;
    ShapedByInv(w);
    if e.Handle? {
      if e.p < |w.log| && w.fetched[e.p] < |w.log[e.p]| && w.log[e.p][w.fetched[e.p]].Good? {
        RegisterCools(w.mem, e.p, w.fetched[e.p], w.log[e.p][w.fetched[e.p]].batch, e.now, id);
      }
    } else {
      OthersDoNotCool(w, e, id);
    }
  }

  lemma CreatedGrows(w: World, e: Event)
    requires Shaped(w)
    ensures Apply(w, e).mem.created >= w.mem.created
  {
    hide InUse, Absorb, CutLength, ResultsOf;
  }

  lemma {:induction false} CreatedGrowsOn(w: World, es: seq<Event>)
    requires Inv(w)
    ensures Run(w, es).mem.created >= w.mem.created
  {
    hide Inv, Apply;
    if es == [] {
    } else {
      CreatedGrowsOn(w, es[..|es| - 1]);
      ShapedByInv(Run(w, es[..|es| - 1]));
      CreatedGrows(Run(w, es[..|es| - 1]), es[|es| - 1]);
    }
  }

  /** Over any run that keeps a poll's state, its stale count grows by exactly the number of
      messages registered for other polls, of any partition, while it was not flushed or being
      flushed; no message of its own, no new end time and no failed flush resets it. */
  lemma {:induction false} StaleCountIsCumulative(w: World, es: seq<Event>, id: string)
    requires Inv(w) && id in w.mem.polls && id in Run(w, es).mem.polls
    requires Run(w, es).mem.polls[id].uid == w.mem.polls[id].uid
    ensures Run(w, es).mem.polls[id].staleCount == w.mem.polls[id].staleCount + Coolings(w, es, id)
  {
    hide Apply, PartitionOk, TallyOk, RowOk, ThreadOk, Cools, InUse;
    if es == [] {
    } else {
      var init := es[..|es| - 1];
      assert StateOk(w, id);
      CreatedGrowsOn(w, init);
      CoolingStep(Run(w, init), es[|es| - 1], id);
      StaleCountIsCumulative(w, init, id);
    }
  }

  // ---- Counting again from an empty memory ----

  // After a crash: nothing in memory, and the poll's flush has not succeeded before. The parameters
  // are positive, as the constructor leaves them.
  ghost predicate StartsOver(w: World, id: string) {
    Inv(w) && Positive(w.cfg) && w.mem.polls == map[] && id != "" && id !in w.flushedPolls
  }

  ghost predicate NoCrash(es: seq<Event>) {
    forall i :: 0 <= i < |es| ==> !es[i].Crash?
  }

  // The event registers a message of another poll.
  predicate ReadsOther(w: World, e: Event, id: string) {
    && e.Handle? && e.p < |w.log| && e.p < |w.fetched| && w.fetched[e.p] < |w.log[e.p]|
    && w.log[e.p][w.fetched[e.p]].Good? && w.log[e.p][w.fetched[e.p]].batch.poll != id
  }

  // Messages of other polls, of any partition, read since the first one of this poll.
  ghost function Others(w: World, es: seq<Event>, id: string): nat
    requires Inv(w)
  {
    if es == [] then 0
    else
      var at := Run(w, es[..|es| - 1]);
      ShapedByInv(at);
      Others(w, es[..|es| - 1], id) + if ReadOf(at, id) != [] && ReadsOther(at, es[|es| - 1], id) then 1 else 0
  }

  function EndAfter(seen: Option<int>, answer: Answer, now: int, cfg: Config): Option<int> {
    match answer
    case Found(poll) => poll.endsAt
    case Failed(NotFound) => Some(now + cfg.closeHardTmo)
    case Failed(_) => if seen.None? then Some(now + cfg.closeHardTmo) else seen
  }

  // The end time as the answers since the poll's first message leave it.
  ghost function EndSeen(w: World, es: seq<Event>, id: string): Option<int>
    requires Inv(w)
  {
    if es == [] then None
    else
      var at, e, seen := Run(w, es[..|es| - 1]), es[|es| - 1], EndSeen(w, es[..|es| - 1], id);
      ShapedByInv(at);
      if e.Discover? && e.id == id && ReadOf(at, id) != [] then EndAfter(seen, e.answer, e.now, w.cfg) else seen
  }

  predicate Flushes(pc: Pc, id: string) {
    (pc.Flushing? || pc.Flushed?) && pc.poll == id
  }

  // The poll waits: nobody has claimed it.
  ghost predicate Waits(w: World, id: string) {
    && id !in w.flushedPolls && (forall t: nat :: !Flushes(PcOf(w, t), id))
    && (id in w.mem.polls ==> !w.mem.polls[id].flushed && !w.mem.polls[id].committed)
  }

  predicate IsClaim(w: World, e: Event, id: string) {
    e.Begin? && e.id == id && PcOf(w, e.t) == Idle && Claims(w.mem, id, e.now, w.cfg)
  }

  lemma NoNewFlush(w: World, e: Event, id: string, t: nat)
    requires Shaped(w) && !Flushes(PcOf(w, t), id) && !IsClaim(w, e, id)
    ensures !Flushes(PcOf(Apply(w, e), t), id)
  {
    hide Shaped, ResultsOf, Claims, BeginFlush, EndFlush, Learn, Cut, CutLength, Commits, Cleanup, HandleNext;
    hide LastOffset, Store.FlushRow, Store.FlushReply;
  }

  lemma NoNewSuccess(w: World, e: Event, id: string)
    requires Shaped(w) && id !in w.flushedPolls && forall t: nat :: !Flushes(PcOf(w, t), id)
    ensures id !in Apply(w, e).flushedPolls
  {
    hide Shaped, ResultsOf, Claims, BeginFlush, EndFlush, Learn, Cut, CutLength, Commits, Cleanup, HandleNext;
    hide LastOffset, Store.FlushRow, Store.FlushReply;
    if e.Attempt? {
      assert !Flushes(PcOf(w, e.t), id);
    }
  }

  lemma RegisterWaiting(m: Mem, p: nat, offset: nat, b: Batch, now: int, id: string)
    requires id in m.polls ==> !m.polls[id].flushed && !m.polls[id].committed
    ensures var m' := Register(m, p, offset, b, now);
            && (id in m.polls ==> id in m'.polls)
            && (id in m'.polls ==>
                  var st := m'.polls[id];
                  && !st.flushed && !st.committed
                  && (if id in m.polls
                      then st.endsAt == m.polls[id].endsAt
                           && st.staleCount == m.polls[id].staleCount + if b.poll != id then 1 else 0
                      else st.endsAt == None && st.staleCount == 0))
  {
    hide Absorb;
  }

  lemma HandleWaiting(w: World, p: nat, now: int, id: string)
    requires Shaped(w) && Waits(w, id)
    ensures var w' := Apply(w, Handle(p, now));
            && (id in w.mem.polls ==> id in w'.mem.polls)
            && (id in w'.mem.polls ==>
                  var st := w'.mem.polls[id];
                  && !st.flushed && !st.committed
                  && (if id in w.mem.polls
                      then st.endsAt == w.mem.polls[id].endsAt
                           && st.staleCount
                              == w.mem.polls[id].staleCount + if ReadsOther(w, Handle(p, now), id) then 1 else 0
                      else st.endsAt == None && st.staleCount == 0))
  {
    hide Register;
    if p < |w.log| && w.fetched[p] < |w.log[p]| && w.log[p][w.fetched[p]].Good? {
      RegisterWaiting(w.mem, p, w.fetched[p], w.log[p][w.fetched[p]].batch, now, id);
    }
  }

  lemma DiscoverWaiting(w: World, i: string, answer: Answer, now: int, id: string)
    requires Shaped(w) && Waits(w, id)
    ensures var w' := Apply(w, Discover(i, answer, now));
            && (id in w.mem.polls <==> id in w'.mem.polls)
            && (id in w.mem.polls ==>
                  var st := w'.mem.polls[id];
                  && !st.flushed && !st.committed && st.staleCount == w.mem.polls[id].staleCount
                  && st.endsAt == if i == id then EndAfter(w.mem.polls[id].endsAt, answer, now, w.cfg)
                                  else w.mem.polls[id].endsAt)
  {
  }

  // The other steps leave the state alone.
  lemma OtherStepWaiting(w: World, e: Event, id: string)
    requires Shaped(w) && Waits(w, id) && !IsClaim(w, e, id) && !e.Crash? && !e.Handle? && !e.Discover?
    ensures var m' := Apply(w, e).mem;
            (id in w.mem.polls <==> id in m'.polls) && (id in w.mem.polls ==> m'.polls[id] == w.mem.polls[id])
  {
    hide Shaped, ResultsOf, CutLength, Commits, LastOffset, Ready, InUse, Store.FlushRow, Store.FlushReply;
    match e
    case Confirm(t) => assert !Flushes(PcOf(w, t), id);
    case Abort(t) => assert !Flushes(PcOf(w, t), id);
    case _ =>
  }

  // What one step makes of a waiting poll's state.
  lemma WaitingStep(w: World, e: Event, id: string)
    requires Inv(w) && Shaped(w) && id != "" && Waits(w, id) && !IsClaim(w, e, id) && !e.Crash?
    ensures var w' := Apply(w, e);
            && (id in w.mem.polls ==> id in w'.mem.polls)
            && (id in w'.mem.polls ==>
                  var st := w'.mem.polls[id];
                  && !st.flushed && !st.committed
                  && st.staleCount == (if id in w.mem.polls
                                       then w.mem.polls[id].staleCount + if ReadsOther(w, e, id) then 1 else 0 else 0)
                  && st.endsAt == (if id in w.mem.polls
                                   then if e.Discover? && e.id == id
                                        then EndAfter(w.mem.polls[id].endsAt, e.answer, e.now, w.cfg)
                                        else w.mem.polls[id].endsAt
                                   else None))
  {
    hide Inv, Apply, Shaped, Register, Mark, Learnt, HandleNext;
    match e {
      case Handle(p, now) => HandleWaiting(w, p, now, id);
      case Discover(i, answer, now) => DiscoverWaiting(w, i, answer, now, id);
      case _ => OtherStepWaiting(w, e, id);
    }
  }

  // Memory holds of the poll what was read and answered since the start.
  ghost predicate CountedAgain(w: World, es: seq<Event>, id: string)
    requires Inv(w)
  {
    var at := Run(w, es);
    && Waits(at, id) && Shaped(at)
    && (id in at.mem.polls <==> ReadOf(at, id) != [])
    && (id !in at.mem.polls ==> Others(w, es, id) == 0 && EndSeen(w, es, id) == None)
    && (id in at.mem.polls ==>
          var st := at.mem.polls[id];
          && st.tally == AbsorbAll(ReadOf(at, id))
          && st.staleCount == Others(w, es, id) && st.endsAt == EndSeen(w, es, id))
  }

  lemma CountingFrom(w: World, id: string)
    requires StartsOver(w, id)
    ensures CountedAgain(w, [], id)
  {
    hide PartitionOk, StateOk, RowOk, Bookkept, ForPoll, AbsorbAll;
    AtFirst(w);
    assert TallyOk(w, id);
    forall t: nat ensures !Flushes(PcOf(w, t), id) { assert ThreadOk(w, t); }
  }

  lemma CountingStep(w: World, es: seq<Event>, e: Event, id: string)
    requires Inv(w) && id != "" && CountedAgain(w, es, id) && !IsClaim(Run(w, es), e, id) && !e.Crash?
    ensures CountedAgain(w, es + [e], id)
  {
    hide Inv, Shaped, Run, Apply, PcOf, ReadOf, AbsorbAll, Flushes, IsClaim, ReadsOther;
    var at := Run(w, es);
    assert (es + [e])[..|es|] == es && (es + [e])[|es|] == e;
    RunMore(w, es, e);
    NoNewSuccess(at, e, id);
    forall t: nat ensures !Flushes(PcOf(Run(w, es + [e]), t), id) { NoNewFlush(at, e, id, t); }
    WaitingStep(at, e, id);
    TallyIsTheFold(Run(w, es + [e]), id);
    SameConfig(w, es);
  }

  lemma SameConfig(w: World, es: seq<Event>)
    requires Inv(w)
    ensures Run(w, es).cfg == w.cfg
  {
    RunIsLater(w, es);
  }

  lemma ClaimsInPrefix(w: World, es: seq<Event>, k: nat, id: string)
    requires Inv(w) && k <= |es|
    ensures forall i: nat :: i < k ==> ClaimsAt(w, es[..k], i, id) == ClaimsAt(w, es, i, id)
  {
    forall i: nat | i < k
      ensures ClaimsAt(w, es[..k], i, id) == ClaimsAt(w, es, i, id)
    {
      assert es[..k][..i] == es[..i];
    }
  }

  lemma {:induction false} CountsAgain(w: World, es: seq<Event>, id: string)
    requires StartsOver(w, id) && NoCrash(es) && forall i: nat :: i < |es| ==> !ClaimsAt(w, es, i, id)
    ensures CountedAgain(w, es, id)
  {
    hide Inv, CountedAgain, Run, Claims;
    if es == [] {
      CountingFrom(w, id);
    } else {
      var n := |es| - 1;
      ClaimsInPrefix(w, es, n, id);
      CountsAgain(w, es[..n], id);
      assert !ClaimsAt(w, es, n, id);
      CountingStep(w, es[..n], es[n], id);
      assert es == es[..n] + [es[n]];
    }
  }

  // What was read and answered since the start, and the clock, are enough to close the poll.
  ghost predicate Suffices(w: World, es: seq<Event>, id: string, now: int)
    requires Inv(w)
  {
    ShapedByInv(Run(w, es));
    var read, end := ReadOf(Run(w, es), id), EndSeen(w, es, id);
    var seen, done := AbsorbAll(read).seen, AbsorbAll(read).doneBy;
    && read != [] && end.Some?
    && now - end.value >= w.cfg.closeGrace
    && (now - end.value >= w.cfg.closeHardTmo
        || (seen != {} && 100 * |done| >= w.cfg.donePercent * |seen|)
        || Others(w, es, id) >= w.cfg.staleMessages)
  }

  /** At any point of a run from an empty memory in which nobody has claimed the poll yet, a check
      claims it exactly when the messages read since the start, of all partitions, the answers
      and the clock suffice; its results are built from the poll's messages read so far. */
  lemma ReplayClaims(w: World, es: seq<Event>, id: string, now: int)
    requires StartsOver(w, id) && NoCrash(es) && forall i: nat :: i < |es| ==> !ClaimsAt(w, es, i, id)
    ensures Claims(Run(w, es).mem, id, now, Run(w, es).cfg) <==> Suffices(w, es, id, now)
    ensures Shaped(Run(w, es))
    ensures id in Run(w, es).mem.polls ==> Run(w, es).mem.polls[id].tally == AbsorbAll(ReadOf(Run(w, es), id))
  {
    hide Inv, Shaped, Run, ReadOf, AbsorbAll, Claims, Flushes;
    CountsAgain(w, es, id);
    SameConfig(w, es);
    ClaimedExactlyWhen(Run(w, es).mem, id, now, w.cfg);
  }

  // The i-th event is a check of the poll: by the message loop after one of the poll's messages,
  // or by a periodic pass.
  ghost predicate ChecksAt(w: World, es: seq<Event>, i: nat, id: string)
    requires Inv(w)
  {
    i < |es| && es[i].Begin? && es[i].id == id && PcOf(Run(w, es[..i]), es[i].t) == Idle
  }

  lemma {:induction false} NoClaimUpTo(w: World, es: seq<Event>, id: string, k: nat)
    requires StartsOver(w, id) && NoCrash(es) && k <= |es|
    requires forall i: nat :: ChecksAt(w, es, i, id) ==> !Suffices(w, es[..i], id, es[i].now)
    ensures forall i: nat :: i < k ==> !ClaimsAt(w, es, i, id)
  {
    hide Inv, Run, Claims, Suffices;
    if k == 0 {
    } else {
      NoClaimUpTo(w, es, id, k - 1);
      ClaimsInPrefix(w, es, k - 1, id);
      if ClaimsAt(w, es, k - 1, id) {
        assert ChecksAt(w, es, k - 1, id);
        ReplayClaims(w, es[..k - 1], id, es[k - 1].now);
      }
    }
  }

  /** From an empty memory on, whatever partitions are read in whatever order, the poll is counted
      on and on without being claimed exactly when, at every check of it that the run makes, it
      has not been seen again, or its end time is not known, or the grace period is not over, or
      the hard deadline is not and what was read gives neither a quorum nor staleness. */
  lemma ReplayReadsOn(w: World, es: seq<Event>, id: string)
    requires StartsOver(w, id) && NoCrash(es)
    ensures (forall i: nat :: i < |es| ==> !ClaimsAt(w, es, i, id)) <==>
              forall i: nat :: ChecksAt(w, es, i, id) ==> !Suffices(w, es[..i], id, es[i].now)
  {
    hide Inv, Run, Claims, Suffices;
    if forall i: nat :: i < |es| ==> !ClaimsAt(w, es, i, id) {
      forall i: nat | ChecksAt(w, es, i, id)
        ensures !Suffices(w, es[..i], id, es[i].now)
      {
        ClaimsInPrefix(w, es, i, id);
        ReplayClaims(w, es[..i], id, es[i].now);
        assert !ClaimsAt(w, es, i, id);
      }
    }
    if forall i: nat :: ChecksAt(w, es, i, id) ==> !Suffices(w, es[..i], id, es[i].now) {
      NoClaimUpTo(w, es, id, |es|);
    }
  }

  // ---- What an early claim stores ----

  ghost function Voters(l: seq<Payload>, id: string): set<string> {
    FingerprintsOf(VotesOf(ForPoll(l, id)))
  }

  lemma VotesOfSnoc(bs: seq<Batch>, b: Batch)
    ensures VotesOf(bs + [b]) == VotesOf(bs) + b.votes
  {
    assert (bs + [b])[..|bs|] == bs;
  }

  lemma VotersSnoc(l: seq<Payload>, x: Payload, id: string)
    ensures Voters(l + [x], id)
         == Voters(l, id) + if x.Good? && x.batch.poll == id then FingerprintsOf(x.batch.votes) else {}
  {
    hide ForPoll, VotesOf, FingerprintsOf;
    ForPollSnoc(l, x, id);
    if x.Good? && x.batch.poll == id {
      VotesOfSnoc(ForPoll(l, id), x.batch);
      FingerprintsOfAppend(VotesOf(ForPoll(l, id)), x.batch.votes);
    } else {
      assert ForPoll(l, id) + [] == ForPoll(l, id);
    }
  }

  lemma {:induction false} VotersGrow(l: seq<Payload>, n: nat, id: string)
    requires n <= |l|
    ensures Voters(l[..n], id) <= Voters(l, id)
  {
    hide Voters;
    if n == |l| {
      assert l[..n] == l;
    } else {
      var init := l[..|l| - 1];
      assert l == init + [l[|l| - 1]] && l[..n] == init[..n];
      VotersGrow(init, n, id);
      VotersSnoc(init, l[|l| - 1], id);
    }
  }

  lemma SubsetSizes(a: set<string>, b: set<string>)
    requires a <= b
    ensures |a| <= |b| && (|a| < |b| <==> exists f :: f in b && f !in a)
  {
    assert b == a + (b - a);
    if f :| f in b && f !in a {
      assert f in b - a;
    } else {
      assert b - a == {};
    }
  }

  lemma ReadVoters(w: World, id: string)
    requires Shaped(w)
    ensures var l, read := w.log[w.route(id)], FingerprintsOf(VotesOf(ReadOf(w, id)));
            && |read| <= |Voters(l, id)|
            && (|read| < |Voters(l, id)| <==> exists f :: f in Voters(l, id) && f !in read)
  {
    hide ForPoll, VotesOf, FingerprintsOf;
    var l := w.log[w.route(id)];
    VotersGrow(l, w.fetched[w.route(id)], id);
    SubsetSizes(FingerprintsOf(VotesOf(ReadOf(w, id))), Voters(l, id));
  }

  lemma FlushNow(w: World, es: seq<Event>, id: string, t: nat, now: int)
    requires Inv(w) && PcOf(Run(w, es), t) == Idle && Claims(Run(w, es).mem, id, now, Run(w, es).cfg)
    requires id in Run(w, es).rows && Run(w, es).rows[id].Active?
    ensures var (at, w') := (Run(w, es), Run(w, es + [Begin(t, id, now)] + [Attempt(t, Answered)]));
            && id in at.mem.polls && w'.log == at.log
            && w'.rows == at.rows[id := Store.Completed(ResultsOf(at.mem.polls[id].tally))]
  {
    hide Inv, Shaped, Run, Apply, Claims, ResultsOf;
    var at := Run(w, es);
    ShapedByInv(at);
    BeginAlone(at, id, now, t);
    AnswerAlone(Apply(at, Begin(t, id, now)), t, id, at.mem.polls[id].uid, ResultsOf(at.mem.polls[id].tally));
    RunMore(w, es, Begin(t, id, now));
    RunMore(w, es + [Begin(t, id, now)], Attempt(t, Answered));
  }

  /** Where they suffice, the poll's messages read so far are what is stored: it is less than the
      log holds exactly when a voter has no vote among them. */
  lemma ReplayStoresWhatItRead(w: World, es: seq<Event>, id: string, t: nat, now: int)
    requires StartsOver(w, id) && NoCrash(es) && forall i: nat :: i < |es| ==> !ClaimsAt(w, es, i, id)
    requires Suffices(w, es, id, now) && PcOf(Run(w, es), t) == Idle
    requires id in Run(w, es).rows && Run(w, es).rows[id].Active?
    ensures var at := Run(w, es);
            && Shaped(at)
            && var w' := Run(w, es + [Begin(t, id, now)] + [Attempt(t, Answered)]);
               var (l, read) := (at.log[at.route(id)], FingerprintsOf(VotesOf(ReadOf(at, id))));
               && w'.log == at.log && HasResults(w', id)
               && w'.rows[id].results == ResultsOf(AbsorbAll(ReadOf(at, id)))
               && w'.rows[id].results.total == |read| <= |Voters(l, id)|
               && (|read| < |Voters(l, id)| <==> exists f :: f in Voters(l, id) && f !in read)
  {
    hide Inv, Shaped, Run, Apply, ReadOf, AbsorbAll, Suffices, Claims, Voters, ResultsOf, VotesOf, ClaimsAt,
         NoCrash, FingerprintsOf;
    var at := Run(w, es);
    ReplayClaims(w, es, id, now);
    FlushNow(w, es, id, t, now);
    TotalIsDistinctFingerprints(ReadOf(at, id));
    ReadVoters(at, id);
  }

  // Two messages of a poll are written and read.
  lemma TwoMessages(w0: World, b1: Batch, b2: Batch, t: int) returns (es: seq<Event>)
    requires Initial(w0) && b1.poll == b2.poll != ""
    ensures var w := Reach(w0, es); var p := w.route(b1.poll);
            && Shaped(w) && w.cfg == w0.cfg && w.flushedPolls == {}
            && w.log[p] == [Good(b1)] + [Good(b2)] && w.position[p] == 0 && w.fetched[p] == 2
            && b1.poll in w.rows && w.rows[b1.poll].Active?
  {
    hide Inv, Run, Apply, Register;
    var p, id := w0.route(b1.poll), b1.poll;
    assert Routed(w0, p, Good(b1)) && Routed(w0, p, Good(b2));
    InitialInv(w0);
    AtFirst(w0);
    CreateSteps(w0, id);
    var w1 := Apply(w0, Create(id));
    NextMessage(w1, p, b1, t);
    var w2 := Apply(Apply(w1, Append(p, Good(b1))), Handle(p, t));
    NextMessage(w2, p, b2, t);
    RunThree(w0, Create(id), Append(p, Good(b1)), Handle(p, t));
    var first := [] + [Create(id)] + [Append(p, Good(b1))] + [Handle(p, t)];
    RunMore(w0, first, Append(p, Good(b2)));
    RunMore(w0, first + [Append(p, Good(b2))], Handle(p, t));
    es := first + [Append(p, Good(b2))] + [Handle(p, t)];
  }

  // The first message is read again, and the end time learnt again.
  lemma FirstAgain(w: World, id: string, poll: Poll, late: int) returns (es: seq<Event>)
    requires StartsOver(w, id) && Shaped(w) && w.threads == map[] && poll.endsAt.Some?
    requires var p := w.route(id); w.fetched[p] == 0 < |w.log[p]| && ForPoll(w.log[p][..1], id) != []
    ensures NoCrash(es) && (forall i: nat :: i < |es| ==> !ClaimsAt(w, es, i, id))
    ensures var at := Run(w, es);
            && Shaped(at) && at.log == w.log && at.route == w.route && at.rows == w.rows && at.threads == map[]
            && at.fetched[w.route(id)] == 1 && EndSeen(w, es, id) == poll.endsAt
  {
    hide Inv, Run, HandleNext, Learn;
    var p := w.route(id);
    es := [] + [Handle(p, late)] + [Discover(id, Found(poll), late)];
    AtFirst(w);
    RunMore(w, [], Handle(p, late));
    RunMore(w, [] + [Handle(p, late)], Discover(id, Found(poll), late));
    ShapedByInv(Run(w, es));
    assert es[..1] == [] + [Handle(p, late)];
    assert ReadOf(Run(w, es[..1]), id) == ForPoll(w.log[p][..1], id);
  }

  /** It happens, with any configuration and any two messages of which the second has a new voter:
      both are read and counted, the process crashes, reads the first again past the hard
      deadline, and stores its total for good. */
  lemma LateReplayStoresLess(w0: World, b1: Batch, b2: Batch, t: int, poll: Poll, late: int, f: string)
    returns (before: seq<Event>, after: seq<Event>)
    requires Initial(w0) && b1.poll == b2.poll != "" && poll.endsAt.Some?
    requires late >= poll.endsAt.value + w0.cfg.closeGrace && late >= poll.endsAt.value + w0.cfg.closeHardTmo
    requires f in FingerprintsOf(b2.votes) && f !in FingerprintsOf(b1.votes)
    ensures var (w, w') := (Reach(w0, before), Reach(w0, before + after)); var id := b1.poll;
            && w'.log == w.log
            && id in w.mem.polls && w.mem.polls[id].tally.dedup == FingerprintsOf(b1.votes) + FingerprintsOf(b2.votes)
            && HasResults(w', id)
            && w'.rows[id].results.total == |FingerprintsOf(b1.votes)| < |w.mem.polls[id].tally.dedup|
  {
    hide Inv, Apply, Run, ForPoll, AbsorbAll, VotesOf, FingerprintsOf, EndSeen, Others, QuorumReady;
    InitialInv(w0);
    before := TwoMessages(w0, b1, b2, t);
    var w, id := Reach(w0, before), b1.poll;
    var p := w.route(id);
    OneAndTwo(b1, b2, id);
    assert w.log[p][..1] == [Good(b1)] && w.log[p][..2] == w.log[p];
    CountedWhatWasRead(w, id);
    CrashEmpties(w);
    var w1 := Run(w, [Crash]);
    var again := FirstAgain(w1, id, poll, late);
    SameConfig(w1, again);
    var flush := again + [Begin(0, id, late)] + [Attempt(0, Answered)];
    assert Suffices(w1, again, id, late);
    ReplayStoresWhatItRead(w1, again, id, 0, late);
    after := [Crash] + flush;
    RunAppend(w, [Crash], flush);
    RunAppend(w0, before, after);
    VotersAre([Good(b1)], id);
    assert f in Voters(w.log[p], id) && f !in Voters([Good(b1)], id);
  }

  lemma CrashEmpties(w: World)
    requires Inv(w)
    ensures var w' := Run(w, [Crash]);
            && Shaped(w) && Shaped(w') && w'.mem.polls == map[] && w'.threads == map[] && w'.fetched == w.position
            && w'.log == w.log && w'.route == w.route && w'.rows == w.rows && w'.cfg == w.cfg
            && w'.flushedPolls == w.flushedPolls
  {
    hide Inv, Run;
    ShapedByInv(w);
    AtFirst(w);
    RunMore(w, [], Crash);
    assert [] + [Crash] == [Crash];
    ShapedByInv(Run(w, [Crash]));
  }

  lemma NoMessages(id: string)
    ensures ForPoll([], id) == [] && Voters([], id) == {}
  {
    assert VotesOf([]) == [];
  }

  lemma OneAndTwo(b1: Batch, b2: Batch, id: string)
    requires b1.poll == b2.poll == id
    ensures ForPoll([Good(b1)], id) == [b1]
    ensures ForPoll([Good(b1)] + [Good(b2)], id) == [b1] + [b2]
    ensures Voters([Good(b1)], id) == FingerprintsOf(b1.votes)
    ensures Voters([Good(b1)] + [Good(b2)], id) == FingerprintsOf(b1.votes) + FingerprintsOf(b2.votes)
  {
    hide ForPoll, Voters, FingerprintsOf;
    NoMessages(id);
    ForPollSnoc([], Good(b1), id);
    VotersSnoc([], Good(b1), id);
    assert [] + [Good(b1)] == [Good(b1)];
    ForPollSnoc([Good(b1)], Good(b2), id);
    VotersSnoc([Good(b1)], Good(b2), id);
  }

  lemma CountedWhatWasRead(w: World, id: string)
    requires Inv(w) && Shaped(w) && id != "" && id !in w.flushedPolls && ReadOf(w, id) != []
    ensures id in w.mem.polls && w.mem.polls[id].tally.dedup == Voters(w.log[w.route(id)][..w.fetched[w.route(id)]], id)
  {
    hide ForPoll, AbsorbAll, PartitionOk, StateOk, ThreadOk, RowOk, Bookkept;
    assert TallyOk(w, id);
    AbsorbAllCounts(ReadOf(w, id));
  }

  // ---- What is committed and what is stored ----

  lemma {:induction false} VotersMembers(l: seq<Payload>, id: string)
    ensures forall f :: f in Voters(l, id) <==>
              exists o :: 0 <= o < |l| && l[o].Good? && l[o].batch.poll == id && f in FingerprintsOf(l[o].batch.votes)
  {
    hide Voters, FingerprintsOf;
    if l == [] {
      NoMessages(id);
    } else {
      var init, last := l[..|l| - 1], l[|l| - 1];
      VotersMembers(init, id);
      VotersSnoc(init, last, id);
      assert l == init + [last];
      forall f | f in Voters(init, id)
        ensures exists o :: 0 <= o < |l| && l[o].Good? && l[o].batch.poll == id && f in FingerprintsOf(l[o].batch.votes)
      {
        var o :| 0 <= o < |init| && init[o].Good? && init[o].batch.poll == id
                 && f in FingerprintsOf(init[o].batch.votes);
        assert l[o] == init[o];
      }
    }
  }

  // The o-th message of a partition brings a voter the first n messages do not have.
  ghost predicate BringsVoter(l: seq<Payload>, id: string, n: nat, o: nat)
    requires n <= |l| && o < |l|
  {
    l[o].Good? && l[o].batch.poll == id && exists f :: f in FingerprintsOf(l[o].batch.votes) && f !in Voters(l[..n], id)
  }

  lemma MoreVoters(l: seq<Payload>, id: string, n: nat, m: nat)
    requires n <= |l| && m <= |l|
    ensures |Voters(l[..n], id)| < |Voters(l[..m], id)| <==> exists o: nat :: n <= o < m && BringsVoter(l, id, n, o)
  {
    hide Voters, FingerprintsOf;
    if m <= n {
      assert l[..n][..m] == l[..m];
      VotersGrow(l[..n], m, id);
      SubsetSizes(Voters(l[..m], id), Voters(l[..n], id));
    } else {
      assert l[..m][..n] == l[..n];
      VotersGrow(l[..m], n, id);
      SubsetSizes(Voters(l[..n], id), Voters(l[..m], id));
      VotersMembers(l[..m], id);
      VotersMembers(l[..n], id);
      if f :| f in Voters(l[..m], id) && f !in Voters(l[..n], id) {
        var o: nat :| o < m && l[..m][o].Good? && l[..m][o].batch.poll == id
                      && f in FingerprintsOf(l[..m][o].batch.votes);
        assert BringsVoter(l, id, n, o);
      }
      if o: nat :| n <= o < m && BringsVoter(l, id, n, o) {
        var f :| f in FingerprintsOf(l[o].batch.votes) && f !in Voters(l[..n], id);
        assert l[..m][o] == l[o];
        assert f in Voters(l[..m], id);
      }
    }
  }

  /** The stored total falls short of the voters in the committed messages exactly when, after the
      flush had been claimed with n messages of the partition read, a message with a new voter
      was read that is committed by now. */
  lemma StoredAgainstCommitted(w0: World, es: seq<Event>, id: string) returns (i: nat)
    requires Initial(w0) && id != "" && HasResults(Reach(w0, es), id)
    ensures Inv(w0) && ClaimsAt(w0, es, i, id)
    ensures var (at, w) := (Reach(w0, es[..i]), Reach(w0, es)); var p := w.route(id);
            && p < |w.log| && p < |at.fetched| && p < |w.position|
            && at.fetched[p] <= |w.log[p]| && w.position[p] <= |w.log[p]|
            && var (l, n, m) := (w.log[p], at.fetched[p], w.position[p]);
               && w.rows[id].results == ResultsOf(AbsorbAll(ForPoll(l[..n], id)))
               && (w.rows[id].results.total < |Voters(l[..m], id)| <==>
                     exists o: nat :: n <= o < m && BringsVoter(l, id, n, o))
  {
    hide Voters, ForPoll, AbsorbAll, ResultsOf, Run, Inv, Claims, BringsVoter;
    i := StoredIsWhatWasRead(w0, es, id);
    var at, w := Reach(w0, es[..i]), Reach(w0, es);
    var p := w.route(id);
    ShapedByInv(w);
    PositionsAreRead(w, p);
    assert es == es[..i] + es[i..];
    RunAppend(w0, es[..i], es[i..]);
    RunIsLater(at, es[i..]);
    assert at.log[p] <= w.log[p] && at.log[p][..at.fetched[p]] == w.log[p][..at.fetched[p]];
    VotersAre(w.log[p][..at.fetched[p]], id);
    MoreVoters(w.log[p], id, at.fetched[p], w.position[p]);
  }

  lemma VotersAre(l: seq<Payload>, id: string)
    ensures Voters(l, id) == FingerprintsOf(VotesOf(ForPoll(l, id)))
  {
  }

  lemma PositionsAreRead(w: World, p: nat)
    requires Inv(w) && p < |w.log|
    ensures p < |w.position| && w.position[p] <= |w.log[p]|
  {
    assert PartitionOk(w, p);
  }

  lemma FirstEntryAndNext(m: Mem, p: nat, b: Batch, now: int, cfg: Config, t: int)
    requires m.polls.Keys == {b.poll} && m.pending == map[p := [Pending(p, 0, b.poll, At(p, 0))]]
    requires Claims(m, b.poll, now, cfg)
    ensures var m' := EndFlush(Register(BeginFlush(m, b.poll, now, cfg), p, 1, b, t), b.poll, true);
            && b.poll in m'.polls && m'.polls[b.poll].committed && p in m'.pending
            && m'.pending[p] == [Pending(p, 0, b.poll, At(p, 0))] + [Pending(p, 1, b.poll, At(p, 1))]
  {
    hide Absorb;
  }

  // Both entries are committed.
  lemma CommitBoth(w: World, id: string, p: nat)
    requires Shaped(w) && w.threads == map[0 := Idle] && p < |w.position|
    requires id in w.mem.polls && w.mem.polls[id].committed && p in w.mem.pending
    requires w.mem.pending[p] == [Pending(p, 0, id, At(p, 0))] + [Pending(p, 1, id, At(p, 1))]
    ensures var w1 := Apply(w, TakePrefix(0, p));
            && Shaped(w1)
            && var w2 := Apply(w1, Commit(0, true, true));
               w2.position == w.position[p := 2] && w2.log == w.log && w2.rows == w.rows && w2.route == w.route
  {
    var q := Queue(w.mem, p);
    assert CutLength(w.mem, q) == 2;
    var cs := Commits(q[..2]);
    assert cs[1] == At(p, 1);
    assert LastOffset(cs) == Some(1);
  }

  // All seven steps from the claim of a poll with one message to the commit of its two.
  lemma FlushAroundMessage(w: World, id: string, now: int, b: Batch, t: int) returns (es: seq<Event>)
    requires Inv(w) && Shaped(w) && w.threads == map[] && id == b.poll != ""
    requires Claims(w.mem, id, now, w.cfg) && id in w.rows && w.rows[id].Active? && w.mem.polls.Keys == {id}
    requires var p := w.route(id);
             w.fetched[p] == |w.log[p]| == 1 && w.mem.pending == map[p := [Pending(p, 0, id, At(p, 0))]]
    ensures var w' := Run(w, es); var p := w.route(id);
            && Shaped(w') && w'.route == w.route && w'.log[p] == w.log[p] + [Good(b)] && w'.position[p] == 2
            && w'.rows == w.rows[id := Store.Completed(ResultsOf(w.mem.polls[id].tally))]
  {
    hide Inv, Run, Apply, Claims, BeginFlush, EndFlush, Register, ResultsOf;
    var p := w.route(id);
    ClaimedIsKnown(w.mem, id, now, w.cfg);
    var uid, r := w.mem.polls[id].uid, ResultsOf(w.mem.polls[id].tally);
    BeginAlone(w, id, now, 0);
    var w1 := Apply(w, Begin(0, id, now));
    assert Routed(w1, p, Good(b));
    NextMessage(w1, p, b, t);
    var w3 := Apply(Apply(w1, Append(p, Good(b))), Handle(p, t));
    AnswerAlone(w3, 0, id, uid, r);
    var w4 := Apply(w3, Attempt(0, Answered));
    ConfirmAlone(w4, 0, id, uid);
    var w5 := Apply(w4, Confirm(0));
    FirstEntryAndNext(w.mem, p, b, now, w.cfg, t);
    CommitBoth(w5, id, p);
    RunThree(w, Begin(0, id, now), Append(p, Good(b)), Handle(p, t));
    var first := [] + [Begin(0, id, now)] + [Append(p, Good(b))] + [Handle(p, t)];
    RunMore(w, first, Attempt(0, Answered));
    RunMore(w, first + [Attempt(0, Answered)], Confirm(0));
    RunMore(w, first + [Attempt(0, Answered)] + [Confirm(0)], TakePrefix(0, p));
    RunMore(w, first + [Attempt(0, Answered)] + [Confirm(0)] + [TakePrefix(0, p)], Commit(0, true, true));
    es := first + [Attempt(0, Answered)] + [Confirm(0)] + [TakePrefix(0, p)] + [Commit(0, true, true)];
    ShapedByInv(Run(w, es));
  }

  /** It happens, with any configuration and any two messages of which the second has a new voter:
      the second arrives while the flush runs, is committed with the first, and is not counted in
      what is stored. */
  lemma CommittedButNotStored(w0: World, b1: Batch, b2: Batch, t: int, poll: Poll, now: int, f: string)
    returns (es: seq<Event>)
    requires Initial(w0) && b1.poll == b2.poll != "" && poll.endsAt.Some?
    requires now >= poll.endsAt.value + w0.cfg.closeGrace && now >= poll.endsAt.value + w0.cfg.closeHardTmo
    requires f in FingerprintsOf(b2.votes) && f !in FingerprintsOf(b1.votes)
    ensures var w := Reach(w0, es); var id := b1.poll; var p := w.route(id);
            && p < |w.log| && p < |w.position| && w.log[p] == [Good(b1)] + [Good(b2)] && w.position[p] == 2
            && HasResults(w, id)
            && w.rows[id].results.total == |FingerprintsOf(b1.votes)| < |Voters(w.log[p], id)|
  {
    hide Inv, Run, Apply, ForPoll, AbsorbAll, VotesOf, FingerprintsOf, Voters, ResultsOf;
    InitialInv(w0);
    var id := b1.poll;
    var read := OneMessage(w0, b1, t, poll);
    var w := Run(w0, read);
    var p := w.route(id);
    var flush := FlushAroundMessage(w, id, now, b2, t);
    es := read + flush;
    RunAppend(w0, read, flush);
    OneAndTwo(b1, b2, id);
    VotersAre([Good(b1)], id);
    OneMessageCounted(w, b1);
    SubsetSizes(FingerprintsOf(b1.votes), FingerprintsOf(b1.votes) + FingerprintsOf(b2.votes));
  }

  lemma OneMessageCounted(w: World, b: Batch)
    requires Inv(w) && Shaped(w) && b.poll != "" && w.flushedPolls == {} && b.poll in w.mem.polls
    requires w.log[w.route(b.poll)] == [Good(b)] && w.fetched[w.route(b.poll)] == 1
    ensures ResultsOf(w.mem.polls[b.poll].tally).total == |FingerprintsOf(b.votes)|
  {
    hide ForPoll, AbsorbAll, PartitionOk, StateOk, ThreadOk, RowOk, Bookkept, VotesOf, FingerprintsOf;
    var l := [Good(b)];
    assert l[..1] == l;
    assert TallyOk(w, b.poll);
    OneAndTwo(b, b, b.poll);
    TotalIsDistinctFingerprints(ForPoll(l, b.poll));
    VotersAre(l, b.poll);
  }
}

