/** One sequential pass of checkAllReady, and when it leaves the consumer empty. */
module ConsumerCheck {
  import opened Basics
  import opened Service
  import opened Votes
  import opened Totals
  import opened ConsumerState
  import opened ConsumerRuns

  // The outside world during one pass: for every poll what the service answers, the clock after
  // that answer and the clock at the check; which polls' flushes succeed and which partitions'
  // commits do.
  datatype Env = Env(answers: string -> Answer, learnAt: string -> int, checkAt: string -> int,
                     flushOk: set<string>, commitOk: set<nat>)

  function EnsureEndsAt(m: Mem, id: string, env: Env, cfg: Config): Mem {
    if id !in m.polls || m.polls[id].endsAtKnown then m
    else Learn(m, id, env.answers(id), env.learnAt(id), cfg)
  }

  // checkPollReady with nothing in between.
  function CheckPoll(m: Mem, id: string, env: Env, cfg: Config): Mem {
    if Claims(m, id, env.checkAt(id), cfg)
    then EndFlush(BeginFlush(m, id, env.checkAt(id), cfg), id, id in env.flushOk)
    else m
  }

  function Completes(m: Mem, id: string, env: Env, cfg: Config): bool {
    Claims(EnsureEndsAt(m, id, env, cfg), id, env.checkAt(id), cfg) && id in env.flushOk
  }

  function CheckEach(m: Mem, ids: seq<string>, env: Env, cfg: Config): Mem {
    if ids == [] then m
    else
      var init, id := CheckEach(m, ids[..|ids| - 1], env, cfg), ids[|ids| - 1];
      CheckPoll(EnsureEndsAt(init, id, env, cfg), id, env, cfg)
  }

  predicate AnyCompleted(m: Mem, ids: seq<string>, env: Env, cfg: Config) {
    exists k | 0 <= k < |ids| :: Completes(CheckEach(m, ids[..k], env, cfg), ids[k], env, cfg)
  }

  // tryCommit with nothing in between.
  function TryCommit(m: Mem, p: nat, commitOk: bool): Mem {
    if CutLength(m, Queue(m, p)) == 0 then m
    else if commitOk then Cleanup(Cut(m, p))
    else Cut(m, p)
  }

  // handleMessage with nothing in between.
  function HandleMessage(m: Mem, p: nat, offset: nat, payload: Payload, now: int, env: Env, cfg: Config): Mem {
    match payload
    case Malformed => TryCommit(Mark(m, p, offset), p, p in env.commitOk)
    case Good(b) =>
      var m1 := EnsureEndsAt(Register(m, p, offset, b, now), b.poll, env, cfg);
      TryCommit(CheckPoll(m1, b.poll, env, cfg), p, p in env.commitOk)
  }

  function CommitEach(m: Mem, ps: seq<nat>, env: Env): Mem {
    if ps == [] then m else TryCommit(CommitEach(m, ps[..|ps| - 1], env), ps[|ps| - 1], ps[|ps| - 1] in env.commitOk)
  }

  // checkAllReady, for one order of the polls and one order of the partitions.
  function CheckAll(m: Mem, ids: seq<string>, ps: seq<nat>, env: Env, cfg: Config): Mem {
    var m1 := CheckEach(m, ids, env, cfg);
    if AnyCompleted(m, ids, env, cfg) then CommitEach(m1, ps, env) else m1
  }

  ghost predicate Lists<T(!new)>(s: seq<T>, xs: set<T>) {
    (forall x :: x in s <==> x in xs) && forall i, j :: 0 <= i < j < |s| ==> s[i] != s[j]
  }

  function Unflushed(m: Mem): set<string> {
    set id | id in m.polls && !m.polls[id].flushed
  }

  ghost predicate Drained(m: Mem) {
    m.polls == map[] && forall p :: p in m.pending ==> m.pending[p] == []
  }

  // What holds between the sections when no goroutine is inside one.
  ghost predicate Consistent(m: Mem) {
    && (forall p, i :: p in m.pending && 0 <= i < |m.pending[p]| && m.pending[p][i].poll != "" ==>
          m.pending[p][i].poll in m.polls)
    && (forall id :: id in m.polls ==> m.polls[id].committed == m.polls[id].flushed)
    && (forall id :: id in m.polls && id != "" && !m.polls[id].committed ==> InUse(m, id))
  }

  lemma QuietMeansConsistent(w: World)
    requires Inv(w) && forall t: nat :: PcOf(w, t) == Idle
    ensures Consistent(w.mem)
  {
    hide ForPoll, AbsorbAll, InUse, TallyOk, RowOk, ThreadOk;
    forall p, i | p in w.mem.pending && 0 <= i < |w.mem.pending[p]| && w.mem.pending[p][i].poll != ""
      ensures w.mem.pending[p][i].poll in w.mem.polls
    {
      assert PartitionOk(w, p);
      assert Queue(w.mem, p) == w.mem.pending[p];
    }
    forall id | id in w.mem.polls
      ensures w.mem.polls[id].committed == w.mem.polls[id].flushed
      ensures id != "" && !w.mem.polls[id].committed ==> InUse(w.mem, id)
    {
      assert StateOk(w, id);
    }
  }

  // The poll is past its hard deadline, and its flush will succeed.
  ghost predicate Due(m: Mem, id: string, env: Env, cfg: Config) {
    && id in Unflushed(m)
    && m.polls[id].endsAtKnown && m.polls[id].endsAt.Some?
    && env.checkAt(id) >= m.polls[id].endsAt.value + cfg.closeGrace
    && env.checkAt(id) >= m.polls[id].endsAt.value + cfg.closeHardTmo
    && id in env.flushOk
  }

  // Every poll still to flush is due, and the commits succeed.
  ghost predicate AllDue(m: Mem, env: Env, cfg: Config) {
    && (forall id :: id in Unflushed(m) ==> Due(m, id, env, cfg))
    && (forall p :: p in m.pending ==> p in env.commitOk)
  }

  lemma DueIsCompleted(m: Mem, id: string, env: Env, cfg: Config)
    requires Due(m, id, env, cfg)
    ensures Completes(m, id, env, cfg)
    ensures var r := CheckPoll(EnsureEndsAt(m, id, env, cfg), id, env, cfg);
            && r.pending == m.pending && r.polls.Keys == m.polls.Keys
            && r.polls[id].committed && forall i :: i in m.polls && i != id ==> r.polls[i] == m.polls[i]
  {
  }

  lemma DueStays(m: Mem, r: Mem, id: string, env: Env, cfg: Config)
    requires Due(m, id, env, cfg) && (id in r.polls && id in m.polls ==> r.polls[id] == m.polls[id])
    requires r.polls.Keys == m.polls.Keys
    ensures id in m.polls && Due(r, id, env, cfg)
  {
  }

  lemma CheckLast(m: Mem, ids: seq<string>, env: Env, cfg: Config)
    ensures if ids == [] then CheckEach(m, ids, env, cfg) == m
            else
              var r, last := CheckEach(m, ids[..|ids| - 1], env, cfg), ids[|ids| - 1];
              && CheckEach(m, ids, env, cfg) == CheckPoll(EnsureEndsAt(r, last, env, cfg), last, env, cfg)
              && (Completes(r, last, env, cfg) ==> AnyCompleted(m, ids, env, cfg))
  {
    hide CheckPoll, Completes, EnsureEndsAt;
  }

  lemma {:induction false} EachIsCommitted(m: Mem, ids: seq<string>, env: Env, cfg: Config)
    requires forall id :: id in ids ==> Due(m, id, env, cfg)
    requires forall i, j :: 0 <= i < j < |ids| ==> ids[i] != ids[j]
    ensures var r := CheckEach(m, ids, env, cfg);
            && r.pending == m.pending && r.polls.Keys == m.polls.Keys
            && (forall id :: id in m.polls ==>
                  if id in ids then r.polls[id].committed else r.polls[id] == m.polls[id])
    ensures ids != [] ==> AnyCompleted(m, ids, env, cfg)
  {
    hide CheckEach, CheckPoll, Completes, EnsureEndsAt, AnyCompleted, Due;
    CheckLast(m, ids, env, cfg);
    if ids == [] {
    } else {
      var init, last := ids[..|ids| - 1], ids[|ids| - 1];
      assert forall id :: id in ids <==> id in init || id == last by { assert ids == init + [last]; }
      assert last !in init;
      EachIsCommitted(m, init, env, cfg);
      var r := CheckEach(m, init, env, cfg);
      DueStays(m, r, last, env, cfg);
      DueIsCompleted(r, last, env, cfg);
    }
  }

  /** After tryCommit a queue is empty or headed by a message that may not be committed. */
  lemma TryCommitStopsAtUncommitted(m: Mem, p: nat, commitOk: bool)
    ensures var r := TryCommit(m, p, commitOk); Queue(r, p) == [] || !Committable(r, Queue(r, p)[0])
  {
    var q := Queue(m, p);
    var n := CutLength(m, q);
    if n < |q| {
      assert !Committable(m, q[n]);
      assert Queue(Cut(m, p), p)[0] == q[n];
    }
  }

  // Every poll may go, and every pending entry still has its poll.
  ghost predicate AllCommitted(m: Mem) {
    && (forall p, i :: p in m.pending && 0 <= i < |m.pending[p]| && m.pending[p][i].poll != "" ==>
          m.pending[p][i].poll in m.polls)
    && (forall id :: id in m.polls ==> m.polls[id].committed)
  }

  ghost predicate Tidy(m: Mem) {
    forall id :: id in m.polls ==> InUse(m, id)
  }

  lemma {:induction false} WholeQueueIsCut(m: Mem, q: seq<Pending>)
    requires forall i :: 0 <= i < |q| ==> Committable(m, q[i])
    ensures CutLength(m, q) == |q|
  {
    if q == [] {
    } else {
      WholeQueueIsCut(m, q[1..]);
    }
  }

  lemma CommitEmptiesOneQueue(m: Mem, p: nat)
    requires AllCommitted(m) && p in m.pending
    ensures var r := TryCommit(m, p, true);
            && AllCommitted(r)
            && r.pending == m.pending[p := []]
            && (if m.pending[p] == [] then r == m else Tidy(r))
  {
    var q := m.pending[p];
    forall i | 0 <= i < |q| ensures Committable(m, q[i]) { }
    WholeQueueIsCut(m, q);
    if q == [] {
      assert m.pending[p := []] == m.pending;
    } else {
      var c := Cut(m, p);
      assert c.pending[p] == [];
      forall k, i | k in c.pending && 0 <= i < |c.pending[k]| && c.pending[k][i].poll != ""
        ensures c.pending[k][i].poll in Cleanup(c).polls
      {
        assert InUse(c, c.pending[k][i].poll);
      }
      var r := Cleanup(c);
      forall id | id in r.polls ensures InUse(r, id) { assert InUse(c, id); TouchKeepsUse(c, r, id); }
    }
  }

  // One of these queues still has entries.
  ghost predicate SomeBusy(m: Mem, ps: seq<nat>) {
    exists p :: p in ps && p in m.pending && m.pending[p] != []
  }

  lemma {:induction false} CommitEmptiesAll(m: Mem, ps: seq<nat>, env: Env)
    requires AllCommitted(m)
    requires forall p :: p in ps ==> p in m.pending && p in env.commitOk
    ensures var r := CommitEach(m, ps, env);
            && AllCommitted(r)
            && r.pending.Keys == m.pending.Keys
            && (forall p :: p in m.pending ==> r.pending[p] == if p in ps then [] else m.pending[p])
            && (SomeBusy(m, ps) ==> Tidy(r))
  {
    hide TryCommit, Tidy, AllCommitted;
    if ps == [] {
    } else {
      var init, last := ps[..|ps| - 1], ps[|ps| - 1];
      assert forall p :: p in ps <==> p in init || p == last by { assert ps == init + [last]; }
      CommitEmptiesAll(m, init, env);
      CommitEmptiesOneQueue(CommitEach(m, init, env), last);
    }
  }

  /** Progress: past every deadline, with services that answer and nothing running beside it,
      one pass flushes and commits everything and forgets every poll, in whatever order polls
      and partitions come, exactly when it finds a poll to flush or finds nothing at all. A
      pass that finds only flushed polls does nothing: leftovers of a failed commit stay until
      some later commit of any queue succeeds. FailedCommitLeavesAPoll reaches such a state. */
  lemma OnePassDrains(m: Mem, ids: seq<string>, ps: seq<nat>, env: Env, cfg: Config)
    requires Consistent(m) && "" !in m.polls && AllDue(m, env, cfg)
    requires Lists(ids, Unflushed(m)) && Lists(ps, m.pending.Keys)
    ensures Drained(CheckAll(m, ids, ps, env, cfg)) <==> Unflushed(m) != {} || Drained(m)
  {
    hide CheckEach, CommitEach, AnyCompleted, InUse, Due;
    NothingToDo(m, env, cfg);
    EachIsCommitted(m, ids, env, cfg);
    var m1 := CheckEach(m, ids, env, cfg);
    if ids == [] {
      assert Unflushed(m) == {} by { assert forall id :: id in Unflushed(m) ==> id in ids; }
    } else {
      assert ids[0] in Unflushed(m);
      assert AllCommitted(m1);
      CommitEmptiesAll(m1, ps, env);
      assert SomeBusy(m1, ps) by { SomeQueueIsBusy(m, ids[0], ps); }
      var r := CommitEach(m1, ps, env);
      assert forall p :: p in r.pending ==> p in ps;
      EmptyMeansUnused(r);
      assert r.polls.Keys == {};
    }
  }

  lemma NothingToDo(m: Mem, env: Env, cfg: Config)
    ensures CheckEach(m, [], env, cfg) == m && !AnyCompleted(m, [], env, cfg)
  {
  }

  lemma EmptyMeansUnused(m: Mem)
    requires forall p :: p in m.pending ==> m.pending[p] == []
    ensures forall id :: !InUse(m, id)
  {
  }

  lemma SomeQueueIsBusy(m: Mem, id: string, ps: seq<nat>)
    requires InUse(m, id) && Lists(ps, m.pending.Keys)
    ensures SomeBusy(m, ps)
  {
    var p :| p in m.pending && exists i | 0 <= i < |m.pending[p]| :: m.pending[p][i].poll == id;
    assert p in ps;
  }

  // ---- What a failed commit leaves behind ----

  // One message of a poll is read, and its end time is known.
  lemma OneMessage(w0: World, b: Batch, now: int, poll: Poll) returns (es: seq<Event>)
    requires Initial(w0) && b.poll != "" && poll.endsAt.Some?
    ensures var w := Reach(w0, es); var p := w.route(b.poll);
            && Shaped(w) && w.cfg == w0.cfg && w.threads == map[] && w.flushedPolls == {}
            && w.log[p] == [Good(b)] && w.position[p] == 0 && w.fetched[p] == 1
            && b.poll in w.rows && w.rows[b.poll].Active?
            && w.mem.polls.Keys == {b.poll} && !w.mem.polls[b.poll].flushed && w.mem.polls[b.poll].endsAt == poll.endsAt
            && w.mem.pending == map[p := [Pending(p, 0, b.poll, At(p, 0))]]
  {
    hide Inv, Run, Apply, Register, Learn;
    var p, id := w0.route(b.poll), b.poll;
    assert Routed(w0, p, Good(b));
    InitialInv(w0);
    CreateSteps(w0, id);
    var w1 := Apply(w0, Create(id));
    NextMessage(w1, p, b, now);
    var w3 := Apply(Apply(w1, Append(p, Good(b))), Handle(p, now));
    DiscoverSteps(w3, id, Found(poll), now);
    OnlyState(p, b, now, poll, w3.cfg);
    RunThree(w0, Create(id), Append(p, Good(b)), Handle(p, now));
    var read := [] + [Create(id)] + [Append(p, Good(b))] + [Handle(p, now)];
    RunMore(w0, read, Discover(id, Found(poll), now));
    es := read + [Discover(id, Found(poll), now)];
    ShapedByInv(Run(w0, es));
  }

  lemma DiscoverSteps(w: World, id: string, answer: Answer, now: int)
    requires Shaped(w)
    ensures Apply(w, Discover(id, answer, now)) == w.(mem := Learn(w.mem, id, answer, now, w.cfg))
  {
    hide Learn;
  }

  lemma OnlyState(p: nat, b: Batch, now: int, poll: Poll, cfg: Config)
    ensures var m := Learn(Register(Mem(map[], map[], 0), p, 0, b, now), b.poll, Found(poll), now, cfg);
            && m.polls.Keys == {b.poll} && !m.polls[b.poll].flushed && m.polls[b.poll].endsAt == poll.endsAt
            && m.pending == map[p := [Pending(p, 0, b.poll, At(p, 0))]]
  {
    hide Absorb;
    var m := Register(Mem(map[], map[], 0), p, 0, b, now);
    assert m.pending.Keys == {p} && m.pending[p] == [Pending(p, 0, b.poll, At(p, 0))];
  }

  lemma FlushAlone(w: World, id: string, now: int) returns (es: seq<Event>)
    requires Inv(w) && w.threads == map[] && Claims(w.mem, id, now, w.cfg) && id in w.rows && w.rows[id].Active?
    ensures var w' := Run(w, es);
            && w'.cfg == w.cfg && w'.threads == map[0 := Idle] && |w'.position| == |w.position|
            && w'.mem == EndFlush(BeginFlush(w.mem, id, now, w.cfg), id, true)
  {
    hide Inv, Run, Apply, ResultsOf, Claims, BeginFlush, EndFlush;
    AtFirst(w);
    ShapedByInv(w);
    BeginAlone(w, id, now, 0);
    var w1 := Apply(w, Begin(0, id, now));
    AnswerAlone(w1, 0, id, w.mem.polls[id].uid, ResultsOf(w.mem.polls[id].tally));
    ConfirmAlone(Apply(w1, Attempt(0, Answered)), 0, id, w.mem.polls[id].uid);
    RunThree(w, Begin(0, id, now), Attempt(0, Answered), Confirm(0));
    es := [] + [Begin(0, id, now)] + [Attempt(0, Answered)] + [Confirm(0)];
  }

  lemma CommitFails(w: World, p: nat, applied: bool) returns (es: seq<Event>)
    requires Inv(w) && w.threads == map[0 := Idle] && p < |w.position| && CutLength(w.mem, Queue(w.mem, p)) > 0
    ensures var w' := Run(w, es);
            w'.cfg == w.cfg && w'.threads == map[0 := Idle] && w'.mem == Cut(w.mem, p)
  {
    hide Inv, Run, CutLength, Cut, LastOffset;
    AtFirst(w);
    RunMore(w, [], TakePrefix(0, p));
    RunMore(w, [] + [TakePrefix(0, p)], Commit(0, applied, false));
    es := [] + [TakePrefix(0, p)] + [Commit(0, applied, false)];
    ShapedByInv(w);
  }

  /** It happens, with any configuration and any message: past the hard deadline its poll is
      flushed, and the commit fails, whether it was applied or not. No goroutine is left inside
      anything, the poll stays in memory, and no later pass with succeeding services drops it. */
  lemma FailedCommitLeavesAPoll(w0: World, b: Batch, poll: Poll, now: int, applied: bool) returns (es: seq<Event>)
    requires Initial(w0) && b.poll != "" && poll.endsAt.Some?
    requires now >= poll.endsAt.value + w0.cfg.closeGrace && now >= poll.endsAt.value + w0.cfg.closeHardTmo
    ensures var w := Reach(w0, es);
            && (forall t: nat :: PcOf(w, t) == Idle) && Consistent(w.mem)
            && b.poll in w.mem.polls && Unflushed(w.mem) == {}
            && forall ids, ps, env ::
                 AllDue(w.mem, env, w.cfg) && Lists(ids, Unflushed(w.mem)) && Lists(ps, w.mem.pending.Keys) ==>
                   !Drained(CheckAll(w.mem, ids, ps, env, w.cfg))
  {
    hide Inv, Run, CheckAll, Consistent, AllDue;
    InitialInv(w0);
    var id := b.poll;
    var read := OneMessage(w0, b, now, poll);
    var w1 := Run(w0, read);
    var p := w1.route(id);
    var flush := FlushAlone(w1, id, now);
    var w2 := Run(w1, flush);
    assert Queue(w2.mem, p) == [Pending(p, 0, id, At(p, 0))];
    var commit := CommitFails(w2, p, applied);
    es := read + flush + commit;
    RunAppend(w0, read, flush);
    RunAppend(w0, read + flush, commit);
    var w := Reach(w0, es);
    QuietMeansConsistent(w);
    forall ids, ps, env |
      AllDue(w.mem, env, w.cfg) && Lists(ids, Unflushed(w.mem)) && Lists(ps, w.mem.pending.Keys)
      ensures !Drained(CheckAll(w.mem, ids, ps, env, w.cfg))
    {
      OnePassDrains(w.mem, ids, ps, env, w.cfg);
    }
  }
}
