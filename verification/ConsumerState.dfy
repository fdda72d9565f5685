/** The consumer's memory and its critical sections, one function each. */
module ConsumerState {
  import opened Basics
  import opened Service
  import opened Votes
  import opened Totals

  datatype Config = Config(donePercent: int, staleMessages: int, closeGrace: int, closeHardTmo: int)

  predicate Positive(c: Config) {
    c.donePercent > 0 && c.staleMessages > 0 && c.closeGrace > 0 && c.closeHardTmo > 0
  }

  function WithDefaults(c: Config): (r: Config)
    ensures Positive(r)
    ensures r.donePercent == c.donePercent || (c.donePercent <= 0 && r.donePercent == 90)
    ensures r.staleMessages == c.staleMessages || (c.staleMessages <= 0 && r.staleMessages == 1000)
    ensures r.closeGrace == c.closeGrace || (c.closeGrace <= 0 && r.closeGrace == 1_000_000_000)
    ensures r.closeHardTmo == c.closeHardTmo || (c.closeHardTmo <= 0 && r.closeHardTmo == 300_000_000_000)
  {
    Config(if c.donePercent <= 0 then 90 else c.donePercent,
           if c.staleMessages <= 0 then 1000 else c.staleMessages,
           if c.closeGrace <= 0 then SECOND else c.closeGrace,
           if c.closeHardTmo <= 0 then 300 * SECOND else c.closeHardTmo)
  }

  // endsAt None is the zero time. uid numbers the states in the order of their creation.
  datatype PollState = PollState(tally: Tally, endsAt: Option<int>, endsAtKnown: bool,
                                 firstSeen: int, lastSeen: int, staleCount: nat,
                                 flushed: bool, committed: bool, uid: nat)

  // What a queue entry hands to CommitMessages: the message, or, if malformed, the zero message.
  datatype Commit = Zero | At(partition: nat, offset: nat)

  // An empty poll marks an entry that may be committed at once.
  datatype Pending = Pending(partition: nat, offset: nat, poll: string, msg: Commit)

  datatype Mem = Mem(polls: map<string, PollState>, pending: map<nat, seq<Pending>>, created: nat)

  function Queue(m: Mem, p: nat): seq<Pending> {
    if p in m.pending then m.pending[p] else []
  }

  function FreshState(uid: nat, now: int): PollState {
    PollState(NOTHING, None, false, now, now, 0, false, false, uid)
  }

  function Cooler(st: PollState): PollState {
    if st.flushed then st else st.(staleCount := st.staleCount + 1)
  }

  function CoolOthers(polls: map<string, PollState>, poll: string): map<string, PollState> {
    map id | id in polls :: if id == poll then polls[id] else Cooler(polls[id])
  }

  function Absorbed(m: Mem, b: Batch, now: int): PollState {
    var st := if b.poll in m.polls then m.polls[b.poll] else FreshState(m.created, now);
    st.(tally := Absorb(st.tally, b), lastSeen := now)
  }

  // The section of handleMessage for a well-formed batch.
  function Register(m: Mem, p: nat, offset: nat, b: Batch, now: int): Mem {
    Mem(CoolOthers(m.polls[b.poll := Absorbed(m, b, now)], b.poll),
        m.pending[p := Queue(m, p) + [Pending(p, offset, b.poll, At(p, offset))]],
        if b.poll in m.polls then m.created else m.created + 1)
  }

  // The section of markCommittable for a malformed message.
  function Mark(m: Mem, p: nat, offset: nat): Mem {
    m.(pending := m.pending[p := Queue(m, p) + [Pending(p, offset, "", Zero)]])
  }

  function Learnt(st: PollState, answer: Answer, now: int, cfg: Config): PollState {
    match answer
    case Found(poll) => st.(endsAt := poll.endsAt, endsAtKnown := true)
    case Failed(NotFound) => st.(endsAt := Some(now + cfg.closeHardTmo), endsAtKnown := true)
    case Failed(_) => if st.endsAt.None? then st.(endsAt := Some(now + cfg.closeHardTmo)) else st
  }

  function Learn(m: Mem, id: string, answer: Answer, now: int, cfg: Config): Mem {
    if id !in m.polls then m
    else m.(polls := m.polls[id := Learnt(m.polls[id], answer, now, cfg)])
  }

  function NeededDone(seen: nat, percent: int): int {
    var need := (seen * percent + 99) / 100;
    if need == 0 then 1 else need
  }

  predicate QuorumReady(t: Tally, cfg: Config) {
    |t.seen| > 0 && |t.doneBy| >= NeededDone(|t.seen|, cfg.donePercent)
  }

  predicate Ready(st: PollState, now: int, cfg: Config) {
    && !st.flushed
    && st.endsAt.Some?
    && now >= st.endsAt.value + cfg.closeGrace
    && (now >= st.endsAt.value + cfg.closeHardTmo
        || QuorumReady(st.tally, cfg)
        || st.staleCount >= cfg.staleMessages)
  }

  // The first section of checkPollReady: it claims a poll that is ready.
  predicate Claims(m: Mem, id: string, now: int, cfg: Config) {
    id in m.polls && Ready(m.polls[id], now, cfg)
  }

  lemma ClaimedIsKnown(m: Mem, id: string, now: int, cfg: Config)
    requires Claims(m, id, now, cfg)
    ensures id in m.polls
  {
  }

  function BeginFlush(m: Mem, id: string, now: int, cfg: Config): Mem {
    if Claims(m, id, now, cfg) then m.(polls := m.polls[id := m.polls[id].(flushed := true)]) else m
  }

  // Its last section: committed after a successful flush, released after a failed one.
  function EndFlush(m: Mem, id: string, ok: bool): Mem {
    if id !in m.polls then m
    else if ok then m.(polls := m.polls[id := m.polls[id].(committed := true)])
    else m.(polls := m.polls[id := m.polls[id].(flushed := false)])
  }

  predicate Committable(m: Mem, e: Pending) {
    e.poll == "" || (e.poll in m.polls && m.polls[e.poll].committed)
  }

  // The longest prefix of a queue that may be committed.
  function CutLength(m: Mem, q: seq<Pending>): (n: nat)
    ensures n <= |q|
    ensures forall i :: 0 <= i < n ==> Committable(m, q[i])
    ensures n < |q| ==> !Committable(m, q[n])
  {
    if q == [] || !Committable(m, q[0]) then 0 else 1 + CutLength(m, q[1..])
  }

  function Cut(m: Mem, p: nat): Mem {
    var n := CutLength(m, Queue(m, p));
    if n == 0 then m else m.(pending := m.pending[p := Queue(m, p)[n..]])
  }

  function Commits(q: seq<Pending>): seq<Commit> {
    seq(|q|, i requires 0 <= i < |q| => q[i].msg)
  }

  predicate InUse(m: Mem, id: string) {
    id != "" && exists p | p in m.pending :: exists i | 0 <= i < |m.pending[p]| :: m.pending[p][i].poll == id
  }

  // The section of cleanupCommitted.
  function Cleanup(m: Mem): Mem {
    m.(polls := map id | id in m.polls && !(m.polls[id].committed && !InUse(m, id)) :: m.polls[id])
  }

  /** Registering a message in full: of its own poll it moves the tally and the time last seen, or
      starts a state; of every other poll nothing but the stale count, by one while it waits. */
  lemma RegisterInFull(m: Mem, p: nat, offset: nat, b: Batch, now: int, id: string)
    ensures var m' := Register(m, p, offset, b, now);
            && (id in m'.polls <==> id in m.polls || id == b.poll)
            && (id in m'.polls ==>
                  var st' := m'.polls[id];
                  if id !in m.polls then
                    st' == PollState(Absorb(NOTHING, b), None, false, now, now, 0, false, false, m.created)
                  else if id == b.poll then
                    st' == m.polls[id].(tally := Absorb(m.polls[id].tally, b), lastSeen := now)
                  else if m.polls[id].flushed then st' == m.polls[id]
                  else st' == m.polls[id].(staleCount := m.polls[id].staleCount + 1))
            && m'.pending.Keys == m.pending.Keys + {p}
            && (forall q :: q in m.pending && q != p ==> m'.pending[q] == m.pending[q])
            && |m'.pending[p]| == |Queue(m, p)| + 1 && m'.pending[p][..|Queue(m, p)|] == Queue(m, p)
            && m'.pending[p][|Queue(m, p)|] == Pending(p, offset, b.poll, At(p, offset))
  {
    hide Absorb;
  }

  // ---- Quorum arithmetic ----

  /** The rounded-up threshold is the exact percentage test. */
  lemma QuorumIsAPercentage(seen: nat, done: nat, percent: int)
    requires seen > 0 && percent > 0
    ensures done >= NeededDone(seen, percent) <==> 100 * done >= percent * seen
  {
    var x := seen * percent;
    assert x == percent * seen;
    assert x > 0;
    assert 100 * ((x + 99) / 100) + (x + 99) % 100 == x + 99;
  }

  /** The quorum is exactly the percentage of the seen workers, of whom there must be one. */
  lemma QuorumExactly(t: Tally, cfg: Config)
    requires cfg.donePercent > 0
    ensures QuorumReady(t, cfg) <==> t.seen != {} && 100 * |t.doneBy| >= cfg.donePercent * |t.seen|
  {
    if t.seen == {} {
    } else {
      assert |t.seen| > 0;
      QuorumIsAPercentage(|t.seen|, |t.doneBy|, cfg.donePercent);
    }
  }

  /** A check claims a poll exactly when it is known and not claimed, has an end time, is past its
      grace period, and the hard deadline has passed, or the percentage of the seen workers is
      done, or enough messages of other polls have gone by. */
  lemma ClaimedExactlyWhen(m: Mem, id: string, now: int, cfg: Config)
    requires cfg.donePercent > 0
    ensures Claims(m, id, now, cfg) <==>
              && id in m.polls
              && var st := m.polls[id];
                 && !st.flushed && st.endsAt.Some?
                 && now - st.endsAt.value >= cfg.closeGrace
                 && (now - st.endsAt.value >= cfg.closeHardTmo
                     || (st.tally.seen != {} && 100 * |st.tally.doneBy| >= cfg.donePercent * |st.tally.seen|)
                     || st.staleCount >= cfg.staleMessages)
  {
    if id in m.polls {
      QuorumExactly(m.polls[id].tally, cfg);
    }
  }

  /** How many of the seen workers can still be missing at a quorum flush; none, once fewer than
      one worker's share is waived. */
  lemma MissingAtQuorum(t: Tally, cfg: Config)
    requires 0 < cfg.donePercent <= 100 && t.doneBy <= t.seen && QuorumReady(t, cfg)
    ensures |t.seen - t.doneBy| <= |t.seen| * (100 - cfg.donePercent) / 100
    ensures |t.seen| * (100 - cfg.donePercent) < 100 ==> t.doneBy == t.seen
  {
    var s, d, w := |t.seen|, |t.doneBy|, 100 - cfg.donePercent;
    QuorumIsAPercentage(s, d, cfg.donePercent);
    assert s * w == 100 * s - cfg.donePercent * s;
    assert t.seen == t.doneBy + (t.seen - t.doneBy);
    assert |t.seen - t.doneBy| == s - d;
    assert 100 * (s - d) <= s * w;
    if s * w < 100 {
      assert |t.seen - t.doneBy| == 0;
      assert t.seen - t.doneBy == {};
    }
  }

  /** More than all of the workers can never be asked for. */
  lemma NoQuorumAboveHundred(t: Tally, cfg: Config)
    requires cfg.donePercent > 100 && t.doneBy <= t.seen
    ensures !QuorumReady(t, cfg)
  {
    var s, d, extra := |t.seen|, |t.doneBy|, cfg.donePercent - 100;
    assert t.seen == t.doneBy + (t.seen - t.doneBy);
    assert d <= s;
    if s > 0 {
      QuorumIsAPercentage(s, d, cfg.donePercent);
      assert cfg.donePercent * s == 100 * s + extra * s;
      assert extra * s > 0;
    }
  }
}
