/** The consumer as a step system: any number of goroutines interleave the critical sections
    with the calls to the log and to the results service, and the process may crash at any
    point. A goroutine is bound only to finish a flush or a commit it has begun; every real
    order of calls in Run and checkLoop is one of these runs. */
module ConsumerRuns {
  import opened Basics
  import opened Service
  import opened Votes
  import opened Totals
  import opened ConsumerState
  import Store

  datatype Payload = Malformed | Good(batch: Batch)

  // What a goroutine has in hand between two critical sections.
  datatype Pc =
    | Idle
    | Flushing(poll: string, uid: nat, results: Results)   // inside the flush retry loop
    | Flushed(poll: string, uid: nat)                      // flush returned success
    | Committing(partition: nat, commits: seq<Commit>)     // inside CommitMessages
    | Cleaning                                             // CommitMessages returned success

  // log, position and rows survive a crash. position is the offset a restart reads from.
  // The last five fields are bookkeeping: which goroutine claimed a state, which states and
  // polls had a flush succeed, what was ever about to be flushed, and which writes took effect.
  datatype World = World(
    cfg: Config, route: string -> nat,
    log: seq<seq<Payload>>, position: seq<nat>, rows: map<string, Store.Row>,
    mem: Mem, fetched: seq<nat>, threads: map<nat, Pc>,
    flusher: map<nat, nat>, succeeded: multiset<nat>, flushedPolls: set<string>,
    begun: set<(string, Results)>, written: multiset<string>)

  datatype Fate = Answered | AnswerLost | NotDone

  datatype Event =
    | Append(p: nat, payload: Payload)
    | Create(id: string)
    | Handle(p: nat, now: int)
    | Discover(id: string, answer: Answer, now: int)
    | Begin(t: nat, id: string, now: int)
    | Attempt(t: nat, fate: Fate)
    | Confirm(t: nat)
    | Abort(t: nat)
    | TakePrefix(t: nat, p: nat)
    | Commit(t: nat, applied: bool, ok: bool)
    | Clean(t: nat)
    | Crash

  function PcOf(w: World, t: nat): Pc {
    if t in w.threads then w.threads[t] else Idle
  }

  function Goto(w: World, t: nat, pc: Pc): World {
    w.(threads := w.threads[t := pc])
  }

  ghost predicate Shaped(w: World) {
    && |w.position| == |w.fetched| == |w.log|
    && (forall p :: 0 <= p < |w.log| ==> w.fetched[p] <= |w.log[p]|)
    && (forall id :: w.route(id) < |w.log|)
  }

  // Messages of a poll go to the poll's partition.
  ghost predicate Routed(w: World, p: nat, payload: Payload) {
    payload.Good? && payload.batch.poll != "" ==> w.route(payload.batch.poll) == p
  }

  function LastOffset(cs: seq<Commit>): Option<nat> {
    if cs == [] then None
    else if cs[|cs| - 1].At? then Some(cs[|cs| - 1].offset)
    else LastOffset(cs[..|cs| - 1])
  }

  function HandleNext(w: World, p: nat, now: int): Mem
    requires p < |w.log| && p < |w.fetched| && w.fetched[p] < |w.log[p]|
  {
    match w.log[p][w.fetched[p]]
    case Malformed => Mark(w.mem, p, w.fetched[p])
    case Good(b) => Register(w.mem, p, w.fetched[p], b, now)
  }

  // An event that cannot happen leaves the world as it is.
  ghost function Apply(w: World, e: Event): World
    requires Shaped(w)
  {
    match e
    case Append(p, payload) =>
      if p < |w.log| && Routed(w, p, payload) then w.(log := w.log[p := w.log[p] + [payload]]) else w
    case Create(id) => if id in w.rows then w else w.(rows := w.rows[id := Store.Active])
    case Handle(p, now) =>
      if p < |w.log| && w.fetched[p] < |w.log[p]|
      then w.(mem := HandleNext(w, p, now), fetched := w.fetched[p := w.fetched[p] + 1])
      else w
    case Discover(id, answer, now) => w.(mem := Learn(w.mem, id, answer, now, w.cfg))
    case Begin(t, id, now) =>
      if PcOf(w, t) == Idle && Claims(w.mem, id, now, w.cfg) then
        var (uid, results) := (w.mem.polls[id].uid, ResultsOf(w.mem.polls[id].tally));
        Goto(w, t, Flushing(id, uid, results))
        .(mem := BeginFlush(w.mem, id, now, w.cfg), flusher := w.flusher[uid := t], begun := w.begun + {(id, results)})
      else w
    case Attempt(t, fate) =>
      var pc := PcOf(w, t);
      if !pc.Flushing? || fate == NotDone then w
      else
        var reply := Store.FlushReply(w.rows, pc.poll);
        var w1 := w.(rows := Store.FlushRow(w.rows, pc.poll, pc.results),
                     written := if reply.Written? then w.written + multiset{pc.poll} else w.written);
        if fate == AnswerLost || reply.NotFound? then w1
        else Goto(w1, t, Flushed(pc.poll, pc.uid))
             .(flushedPolls := w.flushedPolls + {pc.poll}, succeeded := w.succeeded + multiset{pc.uid})
    case Confirm(t) =>
      var pc := PcOf(w, t);
      if pc.Flushed? then Goto(w, t, Idle).(mem := EndFlush(w.mem, pc.poll, true)) else w
    case Abort(t) =>
      var pc := PcOf(w, t);
      if pc.Flushing? then Goto(w, t, Idle).(mem := EndFlush(w.mem, pc.poll, false)) else w
    case TakePrefix(t, p) =>
      var q := Queue(w.mem, p);
      var n := CutLength(w.mem, q);
      if PcOf(w, t) == Idle && n > 0
      then Goto(w, t, Committing(p, Commits(q[..n]))).(mem := Cut(w.mem, p))
      else w
    case Commit(t, applied, ok) =>
      var pc := PcOf(w, t);
      if pc.Committing? && pc.partition < |w.position| then
        var last := LastOffset(pc.commits);
        Goto(w, t, if ok then Cleaning else Idle)
        .(position := if applied && last.Some? then w.position[pc.partition := last.value + 1] else w.position)
      else w
    case Clean(t) =>
      if PcOf(w, t) == Cleaning then Goto(w, t, Idle).(mem := Cleanup(w.mem)) else w
    case Crash => w.(mem := Mem(map[], map[], w.mem.created), fetched := w.position, threads := map[])
  }

  // ---- The invariant ----

  // The offset of the oldest message not yet cut from its queue.
  function Boundary(w: World, p: nat): int
    requires p < |w.fetched|
  {
    w.fetched[p] - |Queue(w.mem, p)|
  }

  ghost predicate EntryOf(e: Pending, p: nat, offset: int, l: seq<Payload>) {
    && 0 <= offset < |l|
    && e.partition == p && e.offset == offset
    && match l[offset]
       case Malformed => e.poll == "" && e.msg == Zero
       case Good(b) => e.poll == b.poll && e.msg == At(p, offset)
  }

  // A queue holds the youngest messages read from its partition, and their states are live.
  ghost predicate QueueOk(m: Mem, p: nat, fetched: nat, l: seq<Payload>) {
    var q := Queue(m, p);
    && |q| <= fetched
    && (forall i :: 0 <= i < |q| ==> EntryOf(q[i], p, fetched - |q| + i, l))
    && (forall i :: 0 <= i < |q| ==> q[i].poll != "" ==> q[i].poll in m.polls)
  }

  // The first n messages need not be read again.
  ghost predicate SettledBelow(l: seq<Payload>, n: int, flushedPolls: set<string>) {
    forall o :: 0 <= o < n && o < |l| && l[o].Good? && l[o].batch.poll != "" ==> l[o].batch.poll in flushedPolls
  }

  ghost predicate AllRouted(w: World, p: nat)
    requires p < |w.log|
  {
    forall o :: 0 <= o < |w.log[p]| ==> Routed(w, p, w.log[p][o])
  }

  // fetched = dequeued ++ pending, and what is dequeued or committed is settled.
  ghost predicate PartitionOk(w: World, p: nat)
    requires Shaped(w) && p < |w.log|
  {
    && QueueOk(w.mem, p, w.fetched[p], w.log[p])
    && w.position[p] <= Boundary(w, p)
    && SettledBelow(w.log[p], Boundary(w, p), w.flushedPolls)
    && AllRouted(w, p)
  }

  predicate InFlight(pc: Pc, id: string, uid: nat) {
    (pc.Flushing? || pc.Flushed?) && pc.poll == id && pc.uid == uid
  }

  ghost predicate StateOk(w: World, id: string)
    requires id in w.mem.polls
  {
    var st := w.mem.polls[id];
    && st.uid < w.mem.created
    && (st.committed ==> st.flushed && id in w.flushedPolls)
    && (st.flushed && !st.committed ==>
          st.uid in w.flusher && InFlight(PcOf(w, w.flusher[st.uid]), id, st.uid))
    && (!st.flushed ==> st.uid !in w.succeeded)
    && (id != "" && !st.committed ==> InUse(w.mem, id))
  }

  ghost predicate ThreadOk(w: World, t: nat)
    requires Shaped(w)
  {
    var pc := PcOf(w, t);
    && (pc.Flushing? || pc.Flushed? ==>
          && pc.poll in w.mem.polls
          && var st := w.mem.polls[pc.poll];
             st.uid == pc.uid && st.flushed && !st.committed && st.uid in w.flusher && w.flusher[st.uid] == t)
    && (pc.Flushing? ==> pc.uid !in w.succeeded && (pc.poll, pc.results) in w.begun)
    && (pc.Flushed? ==> pc.poll in w.flushedPolls)
    && (pc.Committing? ==>
          && pc.partition < |w.log|
          && forall i :: 0 <= i < |pc.commits| && pc.commits[i].At? ==>
               pc.commits[i].offset < Boundary(w, pc.partition))
  }

  ghost predicate Bookkept(w: World) {
    && (forall a, b :: a in w.mem.polls && b in w.mem.polls && w.mem.polls[a].uid == w.mem.polls[b].uid ==> a == b)
    && (forall u :: w.succeeded[u] <= 1)
    && (forall u :: u in w.succeeded ==> u < w.mem.created)
    && (forall p :: p in w.mem.pending ==> p < |w.log|)
  }

  // The row of a poll is written once, with results some goroutine had begun to flush.
  ghost predicate RowOk(w: World, id: string) {
    && w.written[id] <= 1
    && (id in w.written ==> id in w.rows && w.rows[id].Completed?)
    && (id in w.rows && w.rows[id].Completed? ==> (id, w.rows[id].results) in w.begun)
  }

  function ForPoll(l: seq<Payload>, id: string): seq<Batch> {
    if l == [] then []
    else
      var init := ForPoll(l[..|l| - 1], id);
      match l[|l| - 1]
      case Malformed => init
      case Good(b) => if b.poll == id then init + [b] else init
  }

  // The messages of a poll read so far.
  ghost function ReadOf(w: World, id: string): seq<Batch>
    requires Shaped(w)
  {
    ForPoll(w.log[w.route(id)][..w.fetched[w.route(id)]], id)
  }

  // Until its flush succeeds, a poll's tally is the fold of all its messages read so far, from
  // the beginning of the log, whatever crashes lie in between.
  ghost predicate TallyOk(w: World, id: string)
    requires Shaped(w)
  {
    id != "" && id !in w.flushedPolls ==>
      && (id in w.mem.polls <==> ReadOf(w, id) != [])
      && (id in w.mem.polls ==> w.mem.polls[id].tally == AbsorbAll(ReadOf(w, id)))
  }

  ghost predicate Inv(w: World) {
    && Shaped(w)
    && (forall p: nat :: p < |w.log| ==> PartitionOk(w, p))
    && (forall id :: id in w.mem.polls ==> StateOk(w, id))
    && (forall t: nat :: ThreadOk(w, t))
    && (forall id :: TallyOk(w, id))
    && (forall id :: RowOk(w, id))
    && Bookkept(w)
  }

  lemma ShapedByInv(w: World)
    requires Inv(w)
    ensures Shaped(w)
  {
  }

  lemma TallyIsTheFold(w: World, id: string)
    requires Inv(w) && id != "" && id !in w.flushedPolls
    ensures Shaped(w) && (id in w.mem.polls <==> ReadOf(w, id) != [])
    ensures id in w.mem.polls ==> w.mem.polls[id].tally == AbsorbAll(ReadOf(w, id))
  {
    assert TallyOk(w, id);
  }

  // ---- What a step leaves alone ----

  // The bookkeeping of flushes and rows.
  ghost predicate SameBooks(w: World, w': World) {
    && w'.cfg == w.cfg && w'.route == w.route && w'.rows == w.rows && w'.flusher == w.flusher
    && w'.succeeded == w.succeeded && w'.flushedPolls == w.flushedPolls
    && w'.begun == w.begun && w'.written == w.written
  }

  lemma RowsStay(w: World, w': World)
    requires (forall id :: RowOk(w, id)) && SameBooks(w, w')
    ensures forall id :: RowOk(w', id)
  {
    forall id ensures RowOk(w', id) { assert RowOk(w, id); }
  }

  lemma TalliesStay(w: World, w': World)
    requires Shaped(w) && Shaped(w') && (forall id :: TallyOk(w, id)) && SameBooks(w, w')
    requires w'.log == w.log && w'.fetched == w.fetched && w'.mem.polls == w.mem.polls
    ensures forall id :: TallyOk(w', id)
  {
    hide ForPoll, AbsorbAll;
    forall id ensures TallyOk(w', id) { assert TallyOk(w, id); }
  }

  // ---- Reading and registering ----

  lemma ForPollSnoc(l: seq<Payload>, x: Payload, id: string)
    ensures ForPoll(l + [x], id) == ForPoll(l, id) + (if x.Good? && x.batch.poll == id then [x.batch] else [])
  {
    assert (l + [x])[..|l|] == l;
  }

  lemma AbsorbNothing()
    ensures AbsorbAll([]) == NOTHING
  {
  }

  lemma AbsorbOneMore(bs: seq<Batch>, b: Batch)
    ensures AbsorbAll(bs + [b]) == Absorb(AbsorbAll(bs), b)
  {
    assert (bs + [b])[..|bs|] == bs;
  }

  // A longer queue, with the states it needs.
  ghost predicate Extends(m: Mem, m': Mem, p: nat, e: Pending) {
    && m'.pending == m.pending[p := Queue(m, p) + [e]]
    && m.polls.Keys <= m'.polls.Keys
    && (e.poll != "" ==> e.poll in m'.polls)
  }

  lemma StillInUse(m: Mem, m': Mem, p: nat, e: Pending, id: string)
    requires Extends(m, m', p, e)
    ensures InUse(m, id) ==> InUse(m', id)
    ensures id != "" && id == e.poll ==> InUse(m', id)
  {
    if InUse(m, id) {
      var k :| k in m.pending && exists i | 0 <= i < |m.pending[k]| :: m.pending[k][i].poll == id;
      var i :| 0 <= i < |m.pending[k]| && m.pending[k][i].poll == id;
      assert k in m'.pending && m'.pending[k][i].poll == id;
    }
    if id != "" && id == e.poll {
      assert m'.pending[p][|Queue(m, p)|].poll == id;
    }
  }

  lemma LongerQueueOk(m: Mem, m': Mem, p: nat, e: Pending, fetched: nat, l: seq<Payload>)
    requires QueueOk(m, p, fetched, l) && Extends(m, m', p, e) && EntryOf(e, p, fetched, l)
    ensures QueueOk(m', p, fetched + 1, l)
  {
  }

  lemma OtherQueueOk(m: Mem, m': Mem, p: nat, e: Pending, k: nat, fetched: nat, l: seq<Payload>)
    requires QueueOk(m, k, fetched, l) && Extends(m, m', p, e) && k != p
    ensures QueueOk(m', k, fetched, l) && Queue(m', k) == Queue(m, k)
  {
  }

  function EntryFor(p: nat, off: nat, payload: Payload): Pending {
    match payload
    case Malformed => Pending(p, off, "", Zero)
    case Good(b) => Pending(p, off, b.poll, At(p, off))
  }

  lemma HandleKeepsPartitions(w: World, p: nat, now: int, k: nat)
    requires Inv(w) && p < |w.log| && w.fetched[p] < |w.log[p]| && k < |w.log|
    ensures PartitionOk(Apply(w, Handle(p, now)), k)
  {
    hide ForPoll, AbsorbAll, Absorb, CutLength, QueueOk, SettledBelow;
    assert PartitionOk(w, p) && PartitionOk(w, k);
    var w' := Apply(w, Handle(p, now));
    var off := w.fetched[p];
    var e := EntryFor(p, off, w.log[p][off]);
    assert Extends(w.mem, w'.mem, p, e);
    if k == p {
      LongerQueueOk(w.mem, w'.mem, p, e, off, w.log[p]);
    } else {
      OtherQueueOk(w.mem, w'.mem, p, e, k, w.fetched[k], w.log[k]);
    }
    forall o | 0 <= o < |w'.log[k]| ensures Routed(w', k, w'.log[k][o]) { assert Routed(w, k, w.log[k][o]); }
  }

  // Registering a message makes at most one state, and touches no other's identity or flags.
  lemma RegisterKeepsFlags(m: Mem, p: nat, offset: nat, b: Batch, now: int)
    ensures var m' := Register(m, p, offset, b, now);
            && m'.polls.Keys == m.polls.Keys + {b.poll}
            && m'.created == (if b.poll in m.polls then m.created else m.created + 1)
            && m'.pending == m.pending[p := Queue(m, p) + [Pending(p, offset, b.poll, At(p, offset))]]
            && (b.poll !in m.polls ==>
                  var st := m'.polls[b.poll]; st.uid == m.created && !st.flushed && !st.committed)
            && (forall id :: id in m.polls ==>
                  var (st, st') := (m.polls[id], m'.polls[id]);
                  st'.uid == st.uid && st'.flushed == st.flushed && st'.committed == st.committed)
  {
    hide Absorb;
  }

  // What handling the next message makes of the memory, whatever the message.
  ghost predicate Handled(w: World, p: nat, w': World, payload: Payload)
    requires p < |w.fetched|
  {
    && Extends(w.mem, w'.mem, p, EntryFor(p, w.fetched[p], payload))
    && w.mem.created <= w'.mem.created
    && (forall id :: id in w'.mem.polls && id !in w.mem.polls ==>
          payload.Good? && id == payload.batch.poll && w'.mem.created == w.mem.created + 1
          && var st := w'.mem.polls[id]; st.uid == w.mem.created && !st.flushed && !st.committed)
    && (forall id :: id in w.mem.polls ==>
          var (st, st') := (w.mem.polls[id], w'.mem.polls[id]);
          st'.uid == st.uid && st'.flushed == st.flushed && st'.committed == st.committed)
  }

  lemma HandleIsHandled(w: World, p: nat, now: int)
    requires Shaped(w) && p < |w.log| && w.fetched[p] < |w.log[p]|
    ensures var w' := Apply(w, Handle(p, now));
            && Shaped(w') && SameBooks(w, w') && w'.log == w.log && w'.threads == w.threads && w'.position == w.position
            && w'.fetched == w.fetched[p := w.fetched[p] + 1]
            && Handled(w, p, w', w.log[p][w.fetched[p]])
  {
    hide Register;
    match w.log[p][w.fetched[p]]
    case Malformed =>
    case Good(b) => RegisterKeepsFlags(w.mem, p, w.fetched[p], b, now);
  }

  lemma HandleKeepsStates(w: World, p: nat, now: int, id: string)
    requires Inv(w) && p < |w.log| && w.fetched[p] < |w.log[p]|
    requires id in Apply(w, Handle(p, now)).mem.polls
    ensures StateOk(Apply(w, Handle(p, now)), id)
  {
    hide Apply, InUse, PartitionOk, ThreadOk, TallyOk, RowOk;
    var w' := Apply(w, Handle(p, now));
    HandleIsHandled(w, p, now);
    StillInUse(w.mem, w'.mem, p, EntryFor(p, w.fetched[p], w.log[p][w.fetched[p]]), id);
    if id in w.mem.polls {
      assert StateOk(w, id);
    }
  }

  lemma HandleKeepsThreads(w: World, p: nat, now: int, t: nat)
    requires Inv(w) && p < |w.log| && w.fetched[p] < |w.log[p]|
    ensures ThreadOk(Apply(w, Handle(p, now)), t)
  {
    hide Apply, StateOk, TallyOk, RowOk, Bookkept;
    HandleIsHandled(w, p, now);
    assert ThreadOk(w, t);
    assert PartitionOk(w, p);
  }

  lemma HandleKeepsTallies(w: World, p: nat, now: int, id: string)
    requires Inv(w) && p < |w.log| && w.fetched[p] < |w.log[p]|
    ensures TallyOk(Apply(w, Handle(p, now)), id)
  {
    hide ForPoll, AbsorbAll, Absorb, CutLength, InUse;
    var w' := Apply(w, Handle(p, now));
    var off := w.fetched[p];
    assert TallyOk(w, id) && PartitionOk(w, p);
    assert Routed(w, p, w.log[p][off]);
    assert w.log[p][..off + 1] == w.log[p][..off] + [w.log[p][off]];
    ForPollSnoc(w.log[p][..off], w.log[p][off], id);
    AbsorbNothing();
    if id != "" && id !in w.flushedPolls && w.log[p][off].Good? && w.log[p][off].batch.poll == id {
      var b := w.log[p][off].batch;
      assert w.route(id) == p;
      AbsorbOneMore(ReadOf(w, id), b);
      assert ReadOf(w', id) == ReadOf(w, id) + [b];
      assert w'.mem.polls[id].tally == Absorb(if id in w.mem.polls then w.mem.polls[id].tally else NOTHING, b);
    } else if id != "" && id !in w.flushedPolls {
      assert ReadOf(w', id) == ReadOf(w, id);
      assert id in w'.mem.polls <==> id in w.mem.polls;
    }
  }

  lemma HandleKeepsBooks(w: World, p: nat, now: int)
    requires Inv(w) && p < |w.log| && w.fetched[p] < |w.log[p]|
    ensures Bookkept(Apply(w, Handle(p, now)))
  {
    hide Apply, PartitionOk, ThreadOk, TallyOk, StateOk, RowOk;
    UidsAreUsed(w);
    HandleIsHandled(w, p, now);
  }

  lemma UidsAreUsed(w: World)
    requires forall id :: id in w.mem.polls ==> StateOk(w, id)
    ensures forall id :: id in w.mem.polls ==> w.mem.polls[id].uid < w.mem.created
  {
    hide InUse;
    assert forall id :: id in w.mem.polls && StateOk(w, id) ==> w.mem.polls[id].uid < w.mem.created;
  }

  lemma HandleKeepsInv(w: World, p: nat, now: int)
    requires Inv(w) && p < |w.log| && w.fetched[p] < |w.log[p]|
    ensures Inv(Apply(w, Handle(p, now)))
  {
    hide Apply, Shaped, PartitionOk, StateOk, ThreadOk, TallyOk, RowOk, Bookkept, SameBooks;
    var w' := Apply(w, Handle(p, now));
    HandleIsHandled(w, p, now);
    forall k: nat | k < |w'.log| ensures PartitionOk(w', k) { HandleKeepsPartitions(w, p, now, k); }
    forall id | id in w'.mem.polls ensures StateOk(w', id) { HandleKeepsStates(w, p, now, id); }
    forall t: nat ensures ThreadOk(w', t) { HandleKeepsThreads(w, p, now, t); }
    forall id ensures TallyOk(w', id) { HandleKeepsTallies(w, p, now, id); }
    RowsStay(w, w');
    HandleKeepsBooks(w, p, now);
  }

  // ---- The environment ----

  lemma LongerLogQueueOk(m: Mem, p: nat, fetched: nat, l: seq<Payload>, l': seq<Payload>)
    requires QueueOk(m, p, fetched, l) && l <= l'
    ensures QueueOk(m, p, fetched, l')
  {
  }

  lemma AppendSteps(w: World, p: nat, payload: Payload)
    requires Shaped(w) && p < |w.log| && Routed(w, p, payload)
    ensures var w' := Apply(w, Append(p, payload));
            && Shaped(w') && SameBooks(w, w') && w'.log == w.log[p := w.log[p] + [payload]]
            && w'.mem == w.mem && w'.threads == w.threads && w'.fetched == w.fetched && w'.position == w.position
  {
  }

  lemma AppendKeepsPartition(w: World, p: nat, payload: Payload, k: nat)
    requires Inv(w) && p < |w.log| && Routed(w, p, payload) && k < |w.log|
    ensures Shaped(w) && Shaped(Apply(w, Append(p, payload))) && |Apply(w, Append(p, payload)).log| == |w.log|
    ensures PartitionOk(Apply(w, Append(p, payload)), k)
  {
    hide Apply, QueueOk;
    var w' := Apply(w, Append(p, payload));
    AppendSteps(w, p, payload);
    assert PartitionOk(w, k);
    LongerLogQueueOk(w.mem, k, w.fetched[k], w.log[k], w'.log[k]);
    forall o | 0 <= o < |w'.log[k]|
      ensures Routed(w', k, w'.log[k][o])
    {
      assert o < |w.log[k]| ==> Routed(w, k, w.log[k][o]);
    }
  }

  lemma AppendKeepsTally(w: World, p: nat, payload: Payload, id: string)
    requires Inv(w) && p < |w.log| && Routed(w, p, payload)
    ensures Shaped(w) && Shaped(Apply(w, Append(p, payload))) && TallyOk(Apply(w, Append(p, payload)), id)
  {
    hide Apply, ForPoll, AbsorbAll, PartitionOk;
    var w' := Apply(w, Append(p, payload));
    AppendSteps(w, p, payload);
    assert TallyOk(w, id);
    var k := w.route(id);
    assert w'.log[k][..w.fetched[k]] == w.log[k][..w.fetched[k]];
  }

  lemma AppendKeepsInv(w: World, p: nat, payload: Payload)
    requires Inv(w) && p < |w.log| && Routed(w, p, payload)
    ensures Inv(Apply(w, Append(p, payload)))
  {
    hide Apply, PartitionOk, TallyOk, RowOk, InUse;
    AppendSteps(w, p, payload);
    var w' := Apply(w, Append(p, payload));
    forall k: nat | k < |w'.log| ensures PartitionOk(w', k) { AppendKeepsPartition(w, p, payload, k); }
    forall id | id in w'.mem.polls ensures StateOk(w', id) { assert StateOk(w, id); }
    forall t: nat ensures ThreadOk(w', t) { assert ThreadOk(w, t); }
    forall id ensures TallyOk(w', id) { AppendKeepsTally(w, p, payload, id); }
    RowsStay(w, w');
  }

  lemma CreateSteps(w: World, id: string)
    requires Shaped(w) && id !in w.rows
    ensures Apply(w, Create(id)) == w.(rows := w.rows[id := Store.Active])
  {
  }

  lemma CreateKeepsInv(w: World, id: string)
    requires Inv(w) && id !in w.rows
    ensures Inv(Apply(w, Create(id)))
  {
    hide Apply, ForPoll, AbsorbAll, InUse, QueueOk, SettledBelow;
    CreateSteps(w, id);
    var w' := w.(rows := w.rows[id := Store.Active]);
    forall k: nat | k < |w'.log| ensures PartitionOk(w', k) { assert PartitionOk(w, k); AllStillRouted(w, w', k); }
    forall i | i in w'.mem.polls ensures StateOk(w', i) { assert StateOk(w, i); }
    forall t: nat ensures ThreadOk(w', t) { assert ThreadOk(w, t); }
    forall i ensures TallyOk(w', i) { assert TallyOk(w, i); }
    forall i ensures RowOk(w', i) { assert RowOk(w, i); }
  }

  lemma AllStillRouted(w: World, w': World, p: nat)
    requires p < |w.log| && AllRouted(w, p) && w'.log == w.log && w'.route == w.route
    ensures AllRouted(w', p)
  {
    forall o | 0 <= o < |w'.log[p]| ensures Routed(w', p, w'.log[p][o]) { assert Routed(w, p, w.log[p][o]); }
  }

  // ---- Sections that change one state's flags or end time ----

  // Only the state of id differs, and neither its tally nor its identity.
  ghost predicate Touches(m: Mem, m': Mem, id: string) {
    && id in m.polls
    && m'.pending == m.pending && m'.created == m.created
    && m'.polls.Keys == m.polls.Keys
    && (forall i :: i in m.polls && i != id ==> m'.polls[i] == m.polls[i])
    && m'.polls[id].tally == m.polls[id].tally && m'.polls[id].uid == m.polls[id].uid
  }

  ghost predicate SameInput(w: World, w': World) {
    w'.cfg == w.cfg && w'.log == w.log && w'.route == w.route && w'.fetched == w.fetched && w'.position == w.position
    && w.flushedPolls <= w'.flushedPolls
  }

  lemma TouchKeepsPartition(w: World, w': World, id: string, p: nat)
    requires Inv(w) && SameInput(w, w') && Touches(w.mem, w'.mem, id) && p < |w.log|
    ensures PartitionOk(w', p)
  {
    assert PartitionOk(w, p);
    AllStillRouted(w, w', p);
  }

  lemma TouchKeepsTally(w: World, w': World, id: string, i: string)
    requires Inv(w) && SameInput(w, w') && Touches(w.mem, w'.mem, id)
    ensures TallyOk(w', i)
  {
    hide ForPoll, AbsorbAll;
    assert TallyOk(w, i);
  }

  lemma TouchKeepsUse(m: Mem, m': Mem, i: string)
    requires m'.pending == m.pending
    ensures InUse(m', i) == InUse(m, i)
  {
  }

  lemma TouchKeepsInv(w: World, w': World, id: string)
    requires Inv(w) && SameInput(w, w') && Touches(w.mem, w'.mem, id)
    requires forall i :: i in w'.mem.polls ==> StateOk(w', i)
    requires forall u: nat :: ThreadOk(w', u)
    requires forall i :: RowOk(w', i)
    requires Bookkept(w')
    ensures Inv(w')
  {
    hide ForPoll, AbsorbAll, InUse, PartitionOk, TallyOk, StateOk, ThreadOk, RowOk;
    forall p: nat | p < |w'.log| ensures PartitionOk(w', p) { TouchKeepsPartition(w, w', id, p); }
    forall i ensures TallyOk(w', i) { TouchKeepsTally(w, w', id, i); }
  }

  lemma DiscoverKeepsState(w: World, id: string, answer: Answer, now: int, i: string)
    requires Inv(w) && id in w.mem.polls && i in w.mem.polls
    ensures StateOk(Apply(w, Discover(id, answer, now)), i)
  {
    hide ForPoll, AbsorbAll, InUse, PartitionOk, TallyOk, RowOk, ResultsOf;
    assert StateOk(w, i);
    TouchKeepsUse(w.mem, Apply(w, Discover(id, answer, now)).mem, i);
  }

  lemma DiscoverKeepsThread(w: World, id: string, answer: Answer, now: int, u: nat)
    requires Inv(w) && id in w.mem.polls
    ensures ThreadOk(Apply(w, Discover(id, answer, now)), u)
  {
    hide ForPoll, AbsorbAll, InUse, PartitionOk, TallyOk, RowOk, ResultsOf;
    assert ThreadOk(w, u);
  }

  lemma DiscoverKeepsRow(w: World, id: string, answer: Answer, now: int, i: string)
    requires Inv(w) && id in w.mem.polls
    ensures RowOk(Apply(w, Discover(id, answer, now)), i)
  {
    hide ForPoll, AbsorbAll, InUse, PartitionOk, TallyOk, ResultsOf;
    assert RowOk(w, i);
  }

  lemma DiscoverKeepsBooks(w: World, id: string, answer: Answer, now: int)
    requires Inv(w) && id in w.mem.polls
    ensures Shaped(w) && Shaped(Apply(w, Discover(id, answer, now)))
    ensures SameInput(w, Apply(w, Discover(id, answer, now)))
    ensures Bookkept(Apply(w, Discover(id, answer, now))) && Touches(w.mem, Apply(w, Discover(id, answer, now)).mem, id)
  {
    hide ForPoll, AbsorbAll, InUse, PartitionOk, TallyOk, RowOk, ThreadOk, StateOk, ResultsOf;
  }

  lemma DiscoverKeepsInv(w: World, id: string, answer: Answer, now: int)
    requires Inv(w) && id in w.mem.polls
    ensures Inv(Apply(w, Discover(id, answer, now)))
  {
    hide Inv, Shaped, Apply, PcOf, Claims, PartitionOk, TallyOk, StateOk, ThreadOk, RowOk, ResultsOf;
    DiscoverKeepsBooks(w, id, answer, now);
    var w' := Apply(w, Discover(id, answer, now));
    forall i | i in w'.mem.polls ensures StateOk(w', i) { DiscoverKeepsState(w, id, answer, now, i); }
    forall u: nat ensures ThreadOk(w', u) { DiscoverKeepsThread(w, id, answer, now, u); }
    forall i ensures RowOk(w', i) { DiscoverKeepsRow(w, id, answer, now, i); }
    TouchKeepsInv(w, w', id);
  }

  lemma BeginKeepsState(w: World, t: nat, id: string, now: int, i: string)
    requires Inv(w) && PcOf(w, t) == Idle && Claims(w.mem, id, now, w.cfg) && i in w.mem.polls
    ensures StateOk(Apply(w, Begin(t, id, now)), i)
  {
    hide ForPoll, AbsorbAll, InUse, PartitionOk, TallyOk, RowOk, ResultsOf;
    assert StateOk(w, id);
    assert StateOk(w, i);
    TouchKeepsUse(w.mem, Apply(w, Begin(t, id, now)).mem, i);
  }

  lemma BeginKeepsThread(w: World, t: nat, id: string, now: int, u: nat)
    requires Inv(w) && PcOf(w, t) == Idle && Claims(w.mem, id, now, w.cfg)
    ensures ThreadOk(Apply(w, Begin(t, id, now)), u)
  {
    hide ForPoll, AbsorbAll, InUse, PartitionOk, TallyOk, RowOk, ResultsOf;
    assert StateOk(w, id);
    assert ThreadOk(w, u);
  }

  lemma BeginKeepsRow(w: World, t: nat, id: string, now: int, i: string)
    requires Inv(w) && PcOf(w, t) == Idle && Claims(w.mem, id, now, w.cfg)
    ensures RowOk(Apply(w, Begin(t, id, now)), i)
  {
    hide ForPoll, AbsorbAll, InUse, PartitionOk, TallyOk, ResultsOf;
    assert StateOk(w, id);
    assert RowOk(w, i);
  }

  lemma BeginKeepsBooks(w: World, t: nat, id: string, now: int)
    requires Inv(w) && PcOf(w, t) == Idle && Claims(w.mem, id, now, w.cfg)
    ensures Shaped(w) && Shaped(Apply(w, Begin(t, id, now))) && SameInput(w, Apply(w, Begin(t, id, now)))
    ensures Bookkept(Apply(w, Begin(t, id, now))) && Touches(w.mem, Apply(w, Begin(t, id, now)).mem, id)
  {
    hide ForPoll, AbsorbAll, InUse, PartitionOk, TallyOk, RowOk, ThreadOk, ResultsOf;
    assert StateOk(w, id);
  }

  lemma BeginKeepsInv(w: World, t: nat, id: string, now: int)
    requires Inv(w) && PcOf(w, t) == Idle && Claims(w.mem, id, now, w.cfg)
    ensures Inv(Apply(w, Begin(t, id, now)))
  {
    hide Inv, Shaped, Apply, PcOf, Claims, PartitionOk, TallyOk, StateOk, ThreadOk, RowOk, ResultsOf;
    BeginKeepsBooks(w, t, id, now);
    var w' := Apply(w, Begin(t, id, now));
    forall i | i in w'.mem.polls ensures StateOk(w', i) { BeginKeepsState(w, t, id, now, i); }
    forall u: nat ensures ThreadOk(w', u) { BeginKeepsThread(w, t, id, now, u); }
    forall i ensures RowOk(w', i) { BeginKeepsRow(w, t, id, now, i); }
    TouchKeepsInv(w, w', id);
  }

  lemma AttemptKeepsState(w: World, t: nat, fate: Fate, i: string)
    requires Inv(w) && PcOf(w, t).Flushing? && i in w.mem.polls
    ensures StateOk(Apply(w, Attempt(t, fate)), i)
  {
    hide ForPoll, AbsorbAll, InUse, PartitionOk, TallyOk, RowOk, ResultsOf;
    assert ThreadOk(w, t);
    assert StateOk(w, PcOf(w, t).poll);
    assert StateOk(w, i);
    TouchKeepsUse(w.mem, Apply(w, Attempt(t, fate)).mem, i);
  }

  lemma AttemptKeepsThread(w: World, t: nat, fate: Fate, u: nat)
    requires Inv(w) && PcOf(w, t).Flushing?
    ensures ThreadOk(Apply(w, Attempt(t, fate)), u)
  {
    hide ForPoll, AbsorbAll, InUse, PartitionOk, TallyOk, RowOk, ResultsOf;
    assert ThreadOk(w, t);
    assert StateOk(w, PcOf(w, t).poll);
    assert ThreadOk(w, u);
  }

  lemma AttemptKeepsRow(w: World, t: nat, fate: Fate, i: string)
    requires Inv(w) && PcOf(w, t).Flushing?
    ensures RowOk(Apply(w, Attempt(t, fate)), i)
  {
    hide ForPoll, AbsorbAll, InUse, PartitionOk, TallyOk, ResultsOf;
    assert ThreadOk(w, t);
    assert StateOk(w, PcOf(w, t).poll);
    assert RowOk(w, i);
  }

  lemma AttemptKeepsBooks(w: World, t: nat, fate: Fate)
    requires Inv(w) && PcOf(w, t).Flushing?
    ensures Shaped(w) && Shaped(Apply(w, Attempt(t, fate))) && SameInput(w, Apply(w, Attempt(t, fate)))
    ensures Bookkept(Apply(w, Attempt(t, fate))) && Touches(w.mem, Apply(w, Attempt(t, fate)).mem, PcOf(w, t).poll)
  {
    hide ForPoll, AbsorbAll, InUse, PartitionOk, TallyOk, RowOk, ResultsOf;
    assert ThreadOk(w, t);
    assert StateOk(w, PcOf(w, t).poll);
  }

  lemma AttemptKeepsInv(w: World, t: nat, fate: Fate)
    requires Inv(w) && PcOf(w, t).Flushing?
    ensures Inv(Apply(w, Attempt(t, fate)))
  {
    hide Inv, Shaped, Apply, PcOf, Claims, PartitionOk, TallyOk, StateOk, ThreadOk, RowOk, ResultsOf;
    AttemptKeepsBooks(w, t, fate);
    var w' := Apply(w, Attempt(t, fate));
    forall i | i in w'.mem.polls ensures StateOk(w', i) { AttemptKeepsState(w, t, fate, i); }
    forall u: nat ensures ThreadOk(w', u) { AttemptKeepsThread(w, t, fate, u); }
    forall i ensures RowOk(w', i) { AttemptKeepsRow(w, t, fate, i); }
    TouchKeepsInv(w, w', PcOf(w, t).poll);
  }

  lemma ConfirmKeepsState(w: World, t: nat, i: string)
    requires Inv(w) && PcOf(w, t).Flushed? && i in w.mem.polls
    ensures StateOk(Apply(w, Confirm(t)), i)
  {
    hide ForPoll, AbsorbAll, InUse, PartitionOk, TallyOk, RowOk, ResultsOf;
    assert ThreadOk(w, t);
    assert StateOk(w, PcOf(w, t).poll);
    assert StateOk(w, i);
    TouchKeepsUse(w.mem, Apply(w, Confirm(t)).mem, i);
  }

  lemma ConfirmKeepsThread(w: World, t: nat, u: nat)
    requires Inv(w) && PcOf(w, t).Flushed?
    ensures ThreadOk(Apply(w, Confirm(t)), u)
  {
    hide ForPoll, AbsorbAll, InUse, PartitionOk, TallyOk, RowOk, ResultsOf;
    assert ThreadOk(w, t);
    assert StateOk(w, PcOf(w, t).poll);
    assert ThreadOk(w, u);
  }

  lemma ConfirmKeepsRow(w: World, t: nat, i: string)
    requires Inv(w) && PcOf(w, t).Flushed?
    ensures RowOk(Apply(w, Confirm(t)), i)
  {
    hide ForPoll, AbsorbAll, InUse, PartitionOk, TallyOk, ResultsOf;
    assert ThreadOk(w, t);
    assert StateOk(w, PcOf(w, t).poll);
    assert RowOk(w, i);
  }

  lemma ConfirmKeepsBooks(w: World, t: nat)
    requires Inv(w) && PcOf(w, t).Flushed?
    ensures Shaped(w) && Shaped(Apply(w, Confirm(t))) && SameInput(w, Apply(w, Confirm(t)))
    ensures Bookkept(Apply(w, Confirm(t))) && Touches(w.mem, Apply(w, Confirm(t)).mem, PcOf(w, t).poll)
  {
    hide ForPoll, AbsorbAll, InUse, PartitionOk, TallyOk, RowOk, ResultsOf;
    assert ThreadOk(w, t);
    assert StateOk(w, PcOf(w, t).poll);
  }

  lemma ConfirmKeepsInv(w: World, t: nat)
    requires Inv(w) && PcOf(w, t).Flushed?
    ensures Inv(Apply(w, Confirm(t)))
  {
    hide Inv, Shaped, Apply, PcOf, Claims, PartitionOk, TallyOk, StateOk, ThreadOk, RowOk, ResultsOf;
    ConfirmKeepsBooks(w, t);
    var w' := Apply(w, Confirm(t));
    forall i | i in w'.mem.polls ensures StateOk(w', i) { ConfirmKeepsState(w, t, i); }
    forall u: nat ensures ThreadOk(w', u) { ConfirmKeepsThread(w, t, u); }
    forall i ensures RowOk(w', i) { ConfirmKeepsRow(w, t, i); }
    TouchKeepsInv(w, w', PcOf(w, t).poll);
  }

  lemma AbortKeepsState(w: World, t: nat, i: string)
    requires Inv(w) && PcOf(w, t).Flushing? && i in w.mem.polls
    ensures StateOk(Apply(w, Abort(t)), i)
  {
    hide ForPoll, AbsorbAll, InUse, PartitionOk, TallyOk, RowOk, ResultsOf;
    assert ThreadOk(w, t);
    assert StateOk(w, PcOf(w, t).poll);
    assert StateOk(w, i);
    TouchKeepsUse(w.mem, Apply(w, Abort(t)).mem, i);
  }

  lemma AbortKeepsThread(w: World, t: nat, u: nat)
    requires Inv(w) && PcOf(w, t).Flushing?
    ensures ThreadOk(Apply(w, Abort(t)), u)
  {
    hide ForPoll, AbsorbAll, InUse, PartitionOk, TallyOk, RowOk, ResultsOf;
    assert ThreadOk(w, t);
    assert StateOk(w, PcOf(w, t).poll);
    assert ThreadOk(w, u);
  }

  lemma AbortKeepsRow(w: World, t: nat, i: string)
    requires Inv(w) && PcOf(w, t).Flushing?
    ensures RowOk(Apply(w, Abort(t)), i)
  {
    hide ForPoll, AbsorbAll, InUse, PartitionOk, TallyOk, ResultsOf;
    assert ThreadOk(w, t);
    assert StateOk(w, PcOf(w, t).poll);
    assert RowOk(w, i);
  }

  lemma AbortKeepsBooks(w: World, t: nat)
    requires Inv(w) && PcOf(w, t).Flushing?
    ensures Shaped(w) && Shaped(Apply(w, Abort(t))) && SameInput(w, Apply(w, Abort(t)))
    ensures Bookkept(Apply(w, Abort(t))) && Touches(w.mem, Apply(w, Abort(t)).mem, PcOf(w, t).poll)
  {
    hide ForPoll, AbsorbAll, InUse, PartitionOk, TallyOk, RowOk, ResultsOf;
    assert ThreadOk(w, t);
    assert StateOk(w, PcOf(w, t).poll);
  }

  lemma AbortKeepsInv(w: World, t: nat)
    requires Inv(w) && PcOf(w, t).Flushing?
    ensures Inv(Apply(w, Abort(t)))
  {
    hide Inv, Shaped, Apply, PcOf, Claims, PartitionOk, TallyOk, StateOk, ThreadOk, RowOk, ResultsOf;
    AbortKeepsBooks(w, t);
    var w' := Apply(w, Abort(t));
    forall i | i in w'.mem.polls ensures StateOk(w', i) { AbortKeepsState(w, t, i); }
    forall u: nat ensures ThreadOk(w', u) { AbortKeepsThread(w, t, u); }
    forall i ensures RowOk(w', i) { AbortKeepsRow(w, t, i); }
    TouchKeepsInv(w, w', PcOf(w, t).poll);
  }

  // ---- Committing ----

  lemma ShorterQueueOk(m: Mem, p: nat, fetched: nat, l: seq<Payload>)
    requires QueueOk(m, p, fetched, l)
    ensures QueueOk(Cut(m, p), p, fetched, l)
  {
    var q, n := Queue(m, p), CutLength(m, Queue(m, p));
    var q' := Queue(Cut(m, p), p);
    assert q' == q[n..];
    forall i | 0 <= i < |q'|
      ensures EntryOf(q'[i], p, fetched - |q'| + i, l)
    {
      assert q'[i] == q[n + i];
    }
  }

  // What is cut is settled, and no live message of an uncommitted poll is cut.
  lemma CutIsSettled(w: World, p: nat)
    requires Inv(w) && p < |w.log|
    ensures var n := CutLength(w.mem, Queue(w.mem, p));
            SettledBelow(w.log[p], Boundary(w, p) + n, w.flushedPolls)
  {
    hide ForPoll, AbsorbAll, InUse, TallyOk, RowOk, ThreadOk;
    assert PartitionOk(w, p);
    var q, n, l := Queue(w.mem, p), CutLength(w.mem, Queue(w.mem, p)), w.log[p];
    forall o | 0 <= o < Boundary(w, p) + n && o < |l| && l[o].Good? && l[o].batch.poll != ""
      ensures l[o].batch.poll in w.flushedPolls
    {
      if o >= Boundary(w, p) {
        var e := q[o - Boundary(w, p)];
        assert EntryOf(e, p, o, l) && Committable(w.mem, e);
        assert StateOk(w, e.poll);
      }
    }
  }

  lemma CutKeepsUse(m: Mem, p: nat, id: string)
    requires InUse(m, id) && id in m.polls && !m.polls[id].committed
    ensures InUse(Cut(m, p), id)
  {
    var q, n := Queue(m, p), CutLength(m, Queue(m, p));
    var k :| k in m.pending && exists i | 0 <= i < |m.pending[k]| :: m.pending[k][i].poll == id;
    var i :| 0 <= i < |m.pending[k]| && m.pending[k][i].poll == id;
    if k == p && n > 0 {
      assert !Committable(m, q[i]);
      assert Cut(m, p).pending[p][i - n].poll == id;
    } else {
      assert Cut(m, p).pending[k][i].poll == id;
    }
  }

  lemma TakeKeepsPartition(w: World, t: nat, p: nat, k: nat)
    requires Inv(w) && PcOf(w, t) == Idle && CutLength(w.mem, Queue(w.mem, p)) > 0 && k < |w.log|
    ensures PartitionOk(Apply(w, TakePrefix(t, p)), k)
  {
    hide ForPoll, AbsorbAll, InUse, TallyOk, RowOk, ThreadOk, StateOk, CutLength;
    var w' := Apply(w, TakePrefix(t, p));
    assert PartitionOk(w, k);
    AllStillRouted(w, w', k);
    if k == p {
      ShorterQueueOk(w.mem, p, w.fetched[p], w.log[p]);
      CutIsSettled(w, p);
    } else {
      assert Queue(w'.mem, k) == Queue(w.mem, k);
    }
  }

  lemma TakeKeepsThread(w: World, t: nat, p: nat, u: nat)
    requires Inv(w) && PcOf(w, t) == Idle && CutLength(w.mem, Queue(w.mem, p)) > 0
    ensures ThreadOk(Apply(w, TakePrefix(t, p)), u)
  {
    hide ForPoll, AbsorbAll, InUse, TallyOk, RowOk, StateOk, CutLength, PartitionOk;
    assert p in w.mem.pending && p < |w.log|;
    assert ThreadOk(w, u);
    if u == t {
      CutOffsets(w, p);
    }
  }

  lemma CutOffsets(w: World, p: nat)
    requires Inv(w) && p < |w.log|
    ensures var n := CutLength(w.mem, Queue(w.mem, p));
            forall i :: 0 <= i < n && Queue(w.mem, p)[i].msg.At? ==> Queue(w.mem, p)[i].msg.offset == Boundary(w, p) + i
  {
    hide ForPoll, AbsorbAll, InUse, TallyOk, RowOk, StateOk, CutLength, ThreadOk;
    assert PartitionOk(w, p);
    var q := Queue(w.mem, p);
    assert forall i :: 0 <= i < |q| ==> EntryOf(q[i], p, Boundary(w, p) + i, w.log[p]);
  }

  lemma TakeSteps(w: World, t: nat, p: nat)
    requires Shaped(w) && PcOf(w, t) == Idle && CutLength(w.mem, Queue(w.mem, p)) > 0
    ensures var w' := Apply(w, TakePrefix(t, p));
            && Shaped(w') && SameBooks(w, w') && w'.log == w.log && w'.fetched == w.fetched && w'.position == w.position
            && w'.mem == Cut(w.mem, p) && w'.mem.polls == w.mem.polls && w'.mem.created == w.mem.created
            && var q := Queue(w.mem, p);
               w'.threads == w.threads[t := Committing(p, Commits(q[..CutLength(w.mem, q)]))]
  {
  }

  lemma TakeKeepsState(w: World, t: nat, p: nat, i: string)
    requires Inv(w) && PcOf(w, t) == Idle && CutLength(w.mem, Queue(w.mem, p)) > 0 && i in w.mem.polls
    ensures StateOk(Apply(w, TakePrefix(t, p)), i)
  {
    hide Apply, Shaped, InUse, CutLength, PartitionOk, ThreadOk, TallyOk, RowOk, Bookkept;
    TakeSteps(w, t, p);
    assert StateOk(w, i);
    if i != "" && !w.mem.polls[i].committed {
      CutKeepsUse(w.mem, p, i);
    }
  }

  lemma TakeKeepsInv(w: World, t: nat, p: nat)
    requires Inv(w) && PcOf(w, t) == Idle && CutLength(w.mem, Queue(w.mem, p)) > 0
    ensures Inv(Apply(w, TakePrefix(t, p)))
  {
    hide Apply, Shaped, CutLength, PartitionOk, ThreadOk, StateOk, TallyOk, RowOk;
    var w' := Apply(w, TakePrefix(t, p));
    TakeSteps(w, t, p);
    assert p in w.mem.pending && p < |w.log|;
    forall k: nat | k < |w'.log| ensures PartitionOk(w', k) { TakeKeepsPartition(w, t, p, k); }
    forall i | i in w'.mem.polls ensures StateOk(w', i) { TakeKeepsState(w, t, p, i); }
    forall u: nat ensures ThreadOk(w', u) { TakeKeepsThread(w, t, p, u); }
    TalliesStay(w, w');
    RowsStay(w, w');
  }

  lemma {:induction false} LastOffsetIsListed(cs: seq<Commit>)
    ensures LastOffset(cs).Some? ==> exists i :: 0 <= i < |cs| && cs[i].At? && cs[i].offset == LastOffset(cs).value
  {
    if cs == [] || cs[|cs| - 1].At? {
    } else {
      LastOffsetIsListed(cs[..|cs| - 1]);
      assert forall i :: 0 <= i < |cs| - 1 ==> cs[..|cs| - 1][i] == cs[i];
    }
  }

  lemma CommitKeepsPartition(w: World, t: nat, applied: bool, ok: bool, k: nat)
    requires Inv(w) && PcOf(w, t).Committing? && k < |w.log|
    ensures PartitionOk(Apply(w, Commit(t, applied, ok)), k)
  {
    hide ForPoll, AbsorbAll, InUse, QueueOk, SettledBelow, StateOk, TallyOk, RowOk;
    assert ThreadOk(w, t) && PartitionOk(w, k);
    LastOffsetIsListed(PcOf(w, t).commits);
    AllStillRouted(w, Apply(w, Commit(t, applied, ok)), k);
  }

  lemma CommitKeepsState(w: World, t: nat, applied: bool, ok: bool, i: string)
    requires Inv(w) && PcOf(w, t).Committing? && i in w.mem.polls
    ensures StateOk(Apply(w, Commit(t, applied, ok)), i)
  {
    hide ForPoll, AbsorbAll, InUse, PartitionOk, TallyOk, RowOk, ThreadOk, LastOffset;
    assert StateOk(w, i);
  }

  lemma CommitKeepsThread(w: World, t: nat, applied: bool, ok: bool, u: nat)
    requires Inv(w) && PcOf(w, t).Committing?
    ensures ThreadOk(Apply(w, Commit(t, applied, ok)), u)
  {
    hide ForPoll, AbsorbAll, InUse, PartitionOk, TallyOk, RowOk, StateOk, LastOffset;
    assert ThreadOk(w, u);
  }

  lemma CommitSteps(w: World, t: nat, applied: bool, ok: bool)
    requires Inv(w) && PcOf(w, t).Committing?
    ensures var w' := Apply(w, Commit(t, applied, ok));
            && Shaped(w) && Shaped(w') && SameBooks(w, w') && w'.log == w.log && w'.fetched == w.fetched
            && w'.mem == w.mem && |w'.position| == |w.position|
            && w'.threads == w.threads[t := if ok then Cleaning else Idle]
  {
    hide PartitionOk, StateOk, TallyOk, RowOk, Bookkept, LastOffset;
    assert ThreadOk(w, t);
  }

  lemma CommitKeepsInv(w: World, t: nat, applied: bool, ok: bool)
    requires Inv(w) && PcOf(w, t).Committing?
    ensures Inv(Apply(w, Commit(t, applied, ok)))
  {
    hide Apply, Shaped, PartitionOk, StateOk, ThreadOk, TallyOk, RowOk;
    CommitSteps(w, t, applied, ok);
    var w' := Apply(w, Commit(t, applied, ok));
    forall k: nat | k < |w'.log| ensures PartitionOk(w', k) { CommitKeepsPartition(w, t, applied, ok, k); }
    forall i | i in w'.mem.polls ensures StateOk(w', i) { CommitKeepsState(w, t, applied, ok, i); }
    forall u: nat ensures ThreadOk(w', u) { CommitKeepsThread(w, t, applied, ok, u); }
    TalliesStay(w, w');
    RowsStay(w, w');
  }

  lemma CleanQueueOk(m: Mem, p: nat, fetched: nat, l: seq<Payload>)
    requires QueueOk(m, p, fetched, l)
    ensures QueueOk(Cleanup(m), p, fetched, l)
  {
    var q := Queue(m, p);
    forall i | 0 <= i < |q| && q[i].poll != ""
      ensures q[i].poll in Cleanup(m).polls
    {
      assert p in m.pending && m.pending[p][i].poll == q[i].poll;
      assert InUse(m, q[i].poll);
    }
  }

  lemma CleanSteps(w: World, t: nat)
    requires Shaped(w) && PcOf(w, t) == Cleaning
    ensures Apply(w, Clean(t)) == w.(threads := w.threads[t := Idle], mem := Cleanup(w.mem))
  {
    hide Cleanup;
  }

  // Only states that are committed and out of use go.
  lemma CleanupKeeps(m: Mem)
    ensures Cleanup(m).pending == m.pending && Cleanup(m).created == m.created
    ensures forall id :: id in Cleanup(m).polls <==> id in m.polls && !(m.polls[id].committed && !InUse(m, id))
    ensures forall id :: id in Cleanup(m).polls ==> Cleanup(m).polls[id] == m.polls[id]
    ensures forall id :: InUse(Cleanup(m), id) == InUse(m, id)
  {
    forall id ensures InUse(Cleanup(m), id) == InUse(m, id) { TouchKeepsUse(m, Cleanup(m), id); }
  }

  lemma CleanKeepsPartition(w: World, t: nat, k: nat)
    requires Inv(w) && PcOf(w, t) == Cleaning && k < |w.log|
    ensures PartitionOk(w.(threads := w.threads[t := Idle], mem := Cleanup(w.mem)), k)
  {
    hide QueueOk, SettledBelow, Cleanup, InUse, StateOk, ThreadOk, TallyOk, RowOk, Bookkept;
    var w' := w.(threads := w.threads[t := Idle], mem := Cleanup(w.mem));
    CleanupKeeps(w.mem);
    assert PartitionOk(w, k);
    AllStillRouted(w, w', k);
    CleanQueueOk(w.mem, k, w.fetched[k], w.log[k]);
  }

  lemma CleanKeepsInv(w: World, t: nat)
    requires Inv(w) && PcOf(w, t) == Cleaning
    ensures Inv(Apply(w, Clean(t)))
  {
    hide Apply, ForPoll, AbsorbAll, PartitionOk, Cleanup, InUse, RowOk;
    CleanSteps(w, t);
    CleanupKeeps(w.mem);
    var w' := w.(threads := w.threads[t := Idle], mem := Cleanup(w.mem));
    forall k: nat | k < |w'.log| ensures PartitionOk(w', k) { CleanKeepsPartition(w, t, k); }
    forall i | i in w'.mem.polls ensures StateOk(w', i) { assert StateOk(w, i); }
    forall u: nat ensures ThreadOk(w', u) { assert ThreadOk(w, u); }
    forall i ensures TallyOk(w', i) { assert TallyOk(w, i); if i in w.mem.polls { assert StateOk(w, i); } }
    RowsStay(w, w');
  }

  // ---- Crashing ----

  lemma {:induction false} SettledMeansNone(l: seq<Payload>, flushedPolls: set<string>, id: string)
    requires SettledBelow(l, |l|, flushedPolls) && id != "" && id !in flushedPolls
    ensures ForPoll(l, id) == []
  {
    if l == [] {
    } else {
      var init := l[..|l| - 1];
      assert forall o :: 0 <= o < |init| ==> init[o] == l[o];
      SettledMeansNone(init, flushedPolls, id);
    }
  }

  lemma CrashKeepsTally(w: World, id: string)
    requires Inv(w)
    ensures Shaped(Apply(w, Crash)) && TallyOk(Apply(w, Crash), id)
  {
    hide ForPoll, AbsorbAll, QueueOk;
    forall p: nat | p < |w.log| ensures w.position[p] <= w.fetched[p] { assert PartitionOk(w, p); }
    if id != "" && id !in w.flushedPolls {
      var p := w.route(id);
      assert PartitionOk(w, p);
      var l := w.log[p][..w.position[p]];
      assert forall o :: 0 <= o < |l| ==> l[o] == w.log[p][o];
      SettledMeansNone(l, w.flushedPolls, id);
    }
  }

  lemma CrashKeepsInv(w: World)
    requires Inv(w)
    ensures Inv(Apply(w, Crash))
  {
    hide ForPoll, AbsorbAll, TallyOk;
    var w' := Apply(w, Crash);
    CrashKeepsTally(w, "");
    forall i ensures TallyOk(w', i) { CrashKeepsTally(w, i); }
    forall k: nat | k < |w'.log|
      ensures PartitionOk(w', k)
    {
      assert PartitionOk(w, k);
      AllStillRouted(w, w', k);
    }
    forall i ensures RowOk(w', i) { assert RowOk(w, i); }
  }

  lemma ApplyKeepsInv(w: World, e: Event)
    requires Inv(w)
    ensures Inv(Apply(w, e))
  {
    hide PartitionOk, StateOk, ThreadOk, TallyOk, RowOk;
    match e
    case Append(p, payload) => if p < |w.log| && Routed(w, p, payload) { AppendKeepsInv(w, p, payload); }
    case Create(id) => if id !in w.rows { CreateKeepsInv(w, id); }
    case Handle(p, now) => if p < |w.log| && w.fetched[p] < |w.log[p]| { HandleKeepsInv(w, p, now); }
    case Discover(id, answer, now) => if id in w.mem.polls { DiscoverKeepsInv(w, id, answer, now); }
    case Begin(t, id, now) => if PcOf(w, t) == Idle && Claims(w.mem, id, now, w.cfg) { BeginKeepsInv(w, t, id, now); }
    case Attempt(t, fate) => if PcOf(w, t).Flushing? { AttemptKeepsInv(w, t, fate); }
    case Confirm(t) => if PcOf(w, t).Flushed? { ConfirmKeepsInv(w, t); }
    case Abort(t) => if PcOf(w, t).Flushing? { AbortKeepsInv(w, t); }
    case TakePrefix(t, p) =>
      if PcOf(w, t) == Idle && CutLength(w.mem, Queue(w.mem, p)) > 0 { TakeKeepsInv(w, t, p); }
    case Commit(t, applied, ok) => if PcOf(w, t).Committing? { CommitKeepsInv(w, t, applied, ok); }
    case Clean(t) => if PcOf(w, t) == Cleaning { CleanKeepsInv(w, t); }
    case Crash => CrashKeepsInv(w);
  }

  // ---- Runs ----

  ghost predicate Initial(w: World) {
    && Shaped(w) && Positive(w.cfg)
    && (forall p: nat :: p < |w.log| ==> w.log[p] == [] && w.position[p] == 0 && w.fetched[p] == 0)
    && w.rows == map[] && w.mem == Mem(map[], map[], 0) && w.threads == map[]
    && w.flusher == map[] && w.succeeded == multiset{} && w.written == multiset{}
    && w.flushedPolls == {} && w.begun == {}
  }

  lemma InitialInv(w: World)
    requires Initial(w)
    ensures Inv(w)
  {
    hide AbsorbAll;
  }

  /** Every run keeps the invariant, whatever interleaves and however often the process crashes. */
  ghost function Run(w: World, es: seq<Event>): (r: World)
    requires Inv(w)
    ensures Inv(r)
  {
    if es == [] then w
    else
      var init := Run(w, es[..|es| - 1]);
      ApplyKeepsInv(init, es[|es| - 1]);
      Apply(init, es[|es| - 1])
  }

  lemma AtFirst(w: World)
    requires Inv(w)
    ensures Run(w, []) == w
  {
  }

  lemma RunMore(w: World, es: seq<Event>, e: Event)
    requires Inv(w)
    ensures Run(w, es + [e]) == Apply(Run(w, es), e)
  {
    assert (es + [e])[..|es|] == es;
  }

  lemma {:induction false} RunAppend(w: World, a: seq<Event>, b: seq<Event>)
    requires Inv(w)
    ensures Run(w, a + b) == Run(Run(w, a), b)
  {
    hide Inv, Apply;
    if b == [] {
      assert a + b == a;
    } else {
      assert (a + b)[..|a + b| - 1] == a + b[..|b| - 1];
      RunAppend(w, a, b[..|b| - 1]);
    }
  }

  // The world after a run from the start.
  ghost function Reach(w0: World, es: seq<Event>): (w: World)
    requires Initial(w0)
    ensures Inv(w)
  {
    InitialInv(w0);
    Run(w0, es)
  }

  // What only ever grows.
  ghost predicate Later(w: World, w': World) {
    && w'.route == w.route && w'.cfg == w.cfg && |w'.log| == |w.log|
    && (forall p: nat :: p < |w.log| ==> w.log[p] <= w'.log[p])
    && w.flushedPolls <= w'.flushedPolls
    && w.begun <= w'.begun
    && (forall id :: id in w.rows && w.rows[id].Completed? ==> id in w'.rows && w'.rows[id] == w.rows[id])
  }

  lemma LogLengthStays(w: World, e: Event)
    requires Shaped(w)
    ensures |Apply(w, e).log| == |w.log|
  {
    hide Store.FlushRow, Store.FlushReply, HandleNext, Learn, Claims, BeginFlush, EndFlush, Cut, CutLength;
    hide Commits, Cleanup, LastOffset;
  }

  lemma LogGrows(w: World, e: Event, p: nat)
    requires Shaped(w) && p < |w.log|
    ensures |Apply(w, e).log| == |w.log| && w.log[p] <= Apply(w, e).log[p]
  {
    hide Store.FlushRow, Store.FlushReply, HandleNext, Learn, Claims, BeginFlush, EndFlush, Cut, CutLength;
    hide Commits, Cleanup, LastOffset;
  }

  lemma CompletedRowsStay(w: World, e: Event, id: string)
    requires Shaped(w) && id in w.rows && w.rows[id].Completed?
    ensures id in Apply(w, e).rows && Apply(w, e).rows[id] == w.rows[id]
  {
    hide HandleNext, Learn, Claims, BeginFlush, EndFlush, Cut, CutLength, Commits, Cleanup, LastOffset;
  }

  lemma BooksGrow(w: World, e: Event)
    requires Shaped(w)
    ensures var w' := Apply(w, e);
            w'.route == w.route && w'.cfg == w.cfg && w.flushedPolls <= w'.flushedPolls && w.begun <= w'.begun
  {
    hide ResultsOf, Store.FlushRow, HandleNext, Learn, Claims, BeginFlush, EndFlush, Cut, CutLength, Commits, Cleanup;
    hide LastOffset;
  }

  lemma ApplyIsLater(w: World, e: Event)
    requires Inv(w)
    ensures Shaped(w) && Later(w, Apply(w, e))
  {
    hide Inv, Apply;
    ShapedByInv(w);
    var w' := Apply(w, e);
    BooksGrow(w, e);
    LogLengthStays(w, e);
    forall p: nat | p < |w.log| ensures w.log[p] <= w'.log[p] { LogGrows(w, e, p); }
    forall id | id in w.rows && w.rows[id].Completed?
      ensures id in w'.rows && w'.rows[id] == w.rows[id]
    {
      CompletedRowsStay(w, e, id);
    }
  }

  lemma {:induction false} RunIsLater(w: World, es: seq<Event>)
    requires Inv(w)
    ensures Later(w, Run(w, es))
  {
    hide Inv;
    if es == [] {
    } else {
      RunIsLater(w, es[..|es| - 1]);
      ApplyIsLater(Run(w, es[..|es| - 1]), es[|es| - 1]);
    }
  }

  /** Commit safety: no message of a poll without a successful flush is ever below the position
      a restart reads from. */
  lemma OnlyFlushedPollsAreCommitted(w0: World, es: seq<Event>, p: nat, o: nat)
    requires Initial(w0)
    requires var w := Reach(w0, es);
              p < |w.log| && o < w.position[p] && o < |w.log[p]| && w.log[p][o].Good? && w.log[p][o].batch.poll != ""
    ensures var w := Reach(w0, es); w.log[p][o].batch.poll in w.flushedPolls
  {
    var w := Reach(w0, es);
    assert PartitionOk(w, p);
  }

  /** Commit queue: what was read from a partition is what was dequeued, followed by exactly the
      pending entries in reading order; dequeued messages are malformed or of flushed polls, and
      the poll of every pending entry still has a live state. */
  lemma ReadIsDequeuedThenPending(w0: World, es: seq<Event>, p: nat, i: nat)
    requires Initial(w0)
    requires p < |Reach(w0, es).log| && i < Reach(w0, es).fetched[p]
    ensures var w := Reach(w0, es); var (q, l) := (Queue(w.mem, p), w.log[p]);
             if i < Boundary(w, p)
             then l[i].Malformed? || l[i].batch.poll == "" || l[i].batch.poll in w.flushedPolls
             else
               var e := q[i - Boundary(w, p)];
               EntryOf(e, p, i, l) && (e.poll != "" ==> e.poll in w.mem.polls)
  {
    hide StateOk, ThreadOk, TallyOk, RowOk, Bookkept, ForPoll, AbsorbAll, InUse, Run;
    var w := Reach(w0, es);
    assert PartitionOk(w, p);
  }

  /** At most one flush is in flight per poll, and while it is, the state it was begun for is
      still there: not deleted, not replaced, not committed. */
  lemma FlushOwnsItsState(w0: World, es: seq<Event>, t: nat, u: nat)
    requires Initial(w0)
    requires var w := Reach(w0, es);
              && (PcOf(w, t).Flushing? || PcOf(w, t).Flushed?)
              && (PcOf(w, u).Flushing? || PcOf(w, u).Flushed?)
              && PcOf(w, t).poll == PcOf(w, u).poll
    ensures t == u
    ensures var w := Reach(w0, es); var pc := PcOf(w, t);
             && pc.poll in w.mem.polls && w.mem.polls[pc.poll].uid == pc.uid
             && w.mem.polls[pc.poll].flushed && !w.mem.polls[pc.poll].committed
  {
    var w := Reach(w0, es);
    assert ThreadOk(w, t) && ThreadOk(w, u);
  }

  /** Committed implies flushed, and flushed but not committed means that a flush is running. */
  lemma FlagsTellTheProtocol(w0: World, es: seq<Event>, id: string)
    requires Initial(w0)
    requires id in Reach(w0, es).mem.polls
    ensures var w := Reach(w0, es); var st := w.mem.polls[id];
             && (st.committed ==> st.flushed && id in w.flushedPolls)
             && (st.flushed && !st.committed <==> exists t: nat :: InFlight(PcOf(w, t), id, st.uid))
  {
    var w := Reach(w0, es);
    assert StateOk(w, id);
    forall t: nat | InFlight(PcOf(w, t), id, w.mem.polls[id].uid)
      ensures w.mem.polls[id].flushed && !w.mem.polls[id].committed
    {
      assert ThreadOk(w, t);
    }
  }

  /** Every state flushes successfully at most once; and over all states ever created for a
      poll, in all lives of the process, at most one write takes effect. What is stored is one
      of the results some goroutine built, and it never changes afterwards. */
  lemma StoredOnceForGood(w0: World, es: seq<Event>, more: seq<Event>, id: string, uid: nat)
    requires Initial(w0)
    ensures var w := Reach(w0, es);
             && w.succeeded[uid] <= 1
             && w.written[id] <= 1
             && (id in w.rows && w.rows[id].Completed? ==>
                   && (id, w.rows[id].results) in w.begun
                   && id in Run(w, more).rows && Run(w, more).rows[id] == w.rows[id])
  {
    var w := Reach(w0, es);
    assert RowOk(w, id);
    RunIsLater(w, more);
  }

  // ---- Steps of one goroutine with nothing beside it ----

  ghost predicate SameLog(w: World, w': World) {
    w'.log == w.log && w'.route == w.route && w'.cfg == w.cfg && w'.position == w.position && w'.fetched == w.fetched
  }

  lemma BeginAlone(w: World, id: string, now: int, t: nat)
    requires Shaped(w) && PcOf(w, t) == Idle && Claims(w.mem, id, now, w.cfg)
    ensures var w' := Apply(w, Begin(t, id, now));
            && Shaped(w') && SameLog(w, w') && w'.rows == w.rows && id in w.mem.polls
            && w'.threads == w.threads[t := Flushing(id, w.mem.polls[id].uid, ResultsOf(w.mem.polls[id].tally))]
            && w'.mem == BeginFlush(w.mem, id, now, w.cfg)
  {
    hide Claims, BeginFlush, ResultsOf;
    ClaimedIsKnown(w.mem, id, now, w.cfg);
  }

  lemma AnswerAlone(w: World, t: nat, id: string, uid: nat, r: Results)
    requires Shaped(w) && PcOf(w, t) == Flushing(id, uid, r) && id in w.rows && w.rows[id].Active?
    ensures var w' := Apply(w, Attempt(t, Answered));
            && Shaped(w') && SameLog(w, w') && w'.rows == w.rows[id := Store.Completed(r)]
            && w'.threads == w.threads[t := Flushed(id, uid)] && w'.mem == w.mem
  {
  }

  lemma ConfirmAlone(w: World, t: nat, id: string, uid: nat)
    requires Shaped(w) && PcOf(w, t) == Flushed(id, uid)
    ensures var w' := Apply(w, Confirm(t));
            && Shaped(w') && SameLog(w, w') && w'.rows == w.rows
            && w'.threads == w.threads[t := Idle] && w'.mem == EndFlush(w.mem, id, true)
  {
    hide EndFlush;
  }

  // One more message is written and read.
  lemma NextMessage(w: World, p: nat, b: Batch, t: int)
    requires Shaped(w) && p < |w.log| && w.fetched[p] == |w.log[p]| && Routed(w, p, Good(b))
    ensures var w1 := Apply(w, Append(p, Good(b)));
            && Shaped(w1)
            && var w2 := Apply(w1, Handle(p, t));
               && Shaped(w2) && w2.log == w.log[p := w.log[p] + [Good(b)]] && w2.route == w.route
               && w2.position == w.position && w2.rows == w.rows && w2.threads == w.threads
               && w2.mem == Register(w.mem, p, |w.log[p]|, b, t) && w2.cfg == w.cfg
               && w2.fetched == w.fetched[p := w.fetched[p] + 1] && w2.flushedPolls == w.flushedPolls
  {
    hide Register;
  }

  lemma RunThree(w: World, a: Event, b: Event, c: Event)
    requires Inv(w)
    ensures Shaped(w) && Shaped(Apply(w, a)) && Shaped(Apply(Apply(w, a), b))
    ensures Run(w, [] + [a] + [b] + [c]) == Apply(Apply(Apply(w, a), b), c)
  {
    hide Inv, Apply, Run, Shaped;
    AtFirst(w);
    RunMore(w, [], a);
    RunMore(w, [] + [a], b);
    RunMore(w, [] + [a] + [b], c);
    ShapedByInv(w);
    ShapedByInv(Run(w, [] + [a]));
    ShapedByInv(Run(w, [] + [a] + [b]));
  }

  // ---- Crash and replay ----

  lemma HandleAdvances(w: World, p: nat, now: int)
    requires Shaped(w) && p < |w.log| && w.fetched[p] < |w.log[p]|
    ensures var w' := Apply(w, Handle(p, now));
            && w'.log == w.log && w'.route == w.route && w'.flushedPolls == w.flushedPolls
            && w'.fetched == w.fetched[p := w.fetched[p] + 1]
  {
  }

  lemma {:induction false} ReadingAdvances(w: World, p: nat, now: int, k: nat)
    requires Inv(w) && p < |w.log| && w.fetched[p] + k <= |w.log[p]|
    ensures var w' := Run(w, seq(k, _ => Handle(p, now)));
            && w'.log == w.log && w'.route == w.route && w'.flushedPolls == w.flushedPolls
            && w'.fetched[p] == w.fetched[p] + k
  {
    hide Inv, Apply;
    ShapedByInv(w);
    if k == 0 {
    } else {
      ReadingAdvances(w, p, now, k - 1);
      assert seq(k, _ => Handle(p, now))[..k - 1] == seq(k - 1, _ => Handle(p, now));
      var init := Run(w, seq(k - 1, _ => Handle(p, now)));
      ShapedByInv(init);
      HandleAdvances(init, p, now);
    }
  }

  /** The tally never depends on the history: two runs that have read the same
      messages of a poll's partition, over any crashes, agree on it. */
  lemma TallyDependsOnlyOnTheLog(w: World, w': World, id: string)
    requires Inv(w) && Inv(w') && id != "" && id !in w.flushedPolls && id !in w'.flushedPolls
    requires ReadOf(w, id) == ReadOf(w', id)
    ensures id in w.mem.polls <==> id in w'.mem.polls
    ensures id in w.mem.polls ==> w.mem.polls[id].tally == w'.mem.polls[id].tally == AbsorbAll(ReadOf(w, id))
  {
    assert TallyOk(w, id) && TallyOk(w', id);
  }

  // The process crashes and reads a partition again, as far as it had been read.
  ghost function CrashAndReread(w: World, p: nat, now: int): (w': World)
    requires Inv(w) && p < |w.log|
    ensures Inv(w')
    ensures w'.log == w.log && w'.route == w.route && w'.flushedPolls == w.flushedPolls
    ensures w'.fetched[p] == w.fetched[p]
  {
    assert PartitionOk(w, p);
    CrashKeepsInv(w);
    var k := w.fetched[p] - w.position[p];
    ReadingAdvances(Apply(w, Crash), p, now, k);
    Run(Apply(w, Crash), seq(k, _ => Handle(p, now)))
  }

  /** Crash and replay: at any point of any run, let the process crash and read the poll's
      partition again from the committed position, as far as it had been read. For a poll whose
      flush has not succeeded, this rebuilds exactly the tally that was lost. */
  lemma ReplayRebuildsTheTally(w0: World, es: seq<Event>, id: string, now: int)
    requires Initial(w0) && id != ""
    requires id !in Reach(w0, es).flushedPolls
    ensures var w := Reach(w0, es);
            var w' := CrashAndReread(w, w.route(id), now);
            && (id in w'.mem.polls <==> id in w.mem.polls)
            && (id in w.mem.polls ==> w'.mem.polls[id].tally == w.mem.polls[id].tally)
  {
    hide PartitionOk, StateOk, ThreadOk, TallyOk, RowOk, Bookkept;
    var w := Reach(w0, es);
    var w' := CrashAndReread(w, w.route(id), now);
    assert ReadOf(w', id) == ReadOf(w, id);
    TallyDependsOnlyOnTheLog(w, w', id);
  }
}
