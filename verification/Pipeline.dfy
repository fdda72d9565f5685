/** The whole path of a vote: any number of API workers, each with its poll buffers and its
    sender, one log, and the consumer, with every action of every part interleaved freely. */
module Pipeline {
  import opened Votes
  import opened Totals
  import B = Buffer
  import L = Lifetimes
  import S = Sending
  import C = ConsumerRuns
  import opened ConsumerState

  // One API worker: the buffers of every poll, over all their lifetimes, and the sender.
  datatype Worker = Worker(slots: map<string, L.Slot>, sender: S.State)

  datatype Pipe = Pipe(workers: map<string, Worker>, batchSize: nat, consumer: C.World)

  datatype Event =
    | Buffer(worker: string, poll: string, call: L.Event)   // a call, a drainer's turn, a cleanup
    | Send(worker: string, step: S.Event)                   // a sender goroutine moves, a late write lands
    | Consume(event: C.Event)                               // the consumer, or the world around it

  function SlotOf(wk: Worker, poll: string): L.Slot {
    if poll in wk.slots then wk.slots[poll] else L.UNUSED
  }

  function ToBatch(worker: string, poll: string, m: B.OutMsg): Batch {
    Batch(poll, worker, m.done, m.votes)
  }

  function SetSlot(wk: Worker, poll: string, slot: L.Slot): Worker {
    wk.(slots := wk.slots[poll := slot])
  }

  // A drainer's send blocks while the sender's shard is full.
  function BufferStep(worker: string, wk: Worker, poll: string, e: L.Event, n: nat): Worker
    requires |wk.sender.shards| > 0
  {
    var slot := SlotOf(wk, poll);
    var out := L.Hands(slot, e);
    var wk' := SetSlot(wk, poll, L.Apply(slot, e, n));
    if out == [] then wk'
    else if |wk.sender.shards[S.Home(wk.sender, poll)].queue| >= wk.sender.capacity then wk
    else wk'.(sender := S.Apply(wk.sender, S.Enqueue(ToBatch(worker, poll, out[0].msg))))
  }

  // The batch a sender action writes to the log, if it does.
  function WrittenBy(s: S.State, e: S.Event): seq<Batch> {
    match e
    case Attempt(i, outcome) =>
      if i < |s.shards| && s.shards[i].current != [] && (outcome.Acked? || outcome.Unknown?)
      then [s.shards[i].current[0]]
      else []
    case Land(k) => if k < |s.afloat| then [s.afloat[k]] else []
    case Receive(_) => []
    case Enqueue(_) => []
  }

  ghost predicate Runnable(x: Pipe) {
    x.batchSize > 0 && C.Shaped(x.consumer) && forall w :: w in x.workers ==> |x.workers[w].sender.shards| > 0
  }

  ghost function Apply(x: Pipe, e: Event): Pipe
    requires Runnable(x)
  {
    match e
    case Buffer(w, p, step) =>
      if w !in x.workers || p == "" then x
      else x.(workers := x.workers[w := BufferStep(w, x.workers[w], p, step, x.batchSize)])
    case Send(w, se) =>
      if w !in x.workers || se.Enqueue? then x
      else
        var wk := x.workers[w];
        var out := WrittenBy(wk.sender, se);
        var x1 := x.(workers := x.workers[w := wk.(sender := S.Apply(wk.sender, se))]);
        if out == [] then x1
        else x1.(consumer := C.Apply(x.consumer, C.Append(x.consumer.route(out[0].poll), C.Good(out[0]))))
    case Consume(ce) =>
      // Batches enter the log through senders only; other writers may leave garbage.
      if ce.Append? && ce.payload.Good? then x else x.(consumer := C.Apply(x.consumer, ce))
  }

  // ---- The invariant ----

  function Batches(w: string, p: string, ms: seq<B.OutMsg>): seq<Batch> {
    seq(|ms|, i requires 0 <= i < |ms| => ToBatch(w, p, ms[i]))
  }

  function OfWorker(bs: seq<Batch>, w: string): seq<Batch> {
    if bs == [] then []
    else
      var init := OfWorker(bs[..|bs| - 1], w);
      if bs[|bs| - 1].worker == w then init + [bs[|bs| - 1]] else init
  }

  // What the log holds of a worker's batches for a poll.
  ghost function Logged(c: C.World, w: string, p: string): seq<Batch>
    requires C.Shaped(c)
  {
    OfWorker(C.ForPoll(c.log[c.route(p)], p), w)
  }

  ghost predicate PollOk(w: string, wk: Worker, n: nat, c: C.World, p: string)
    requires n > 0 && C.Shaped(c)
  {
    && (p in wk.slots ==> p != "" && L.Inv(wk.slots[p], n))
    && S.OfPoll(wk.sender.enqueued, p) == Batches(w, p, L.Messages(SlotOf(wk, p).stream))
    && (p != "" ==> Logged(c, w, p) == S.OfPoll(wk.sender.appended, p))
  }

  ghost predicate WorkerOk(w: string, wk: Worker, n: nat, c: C.World)
    requires n > 0 && C.Shaped(c)
  {
    w != "" && S.Inv(wk.sender) && forall p :: PollOk(w, wk, n, c, p)
  }

  // Every well-formed message comes from one of the workers.
  ghost predicate Known(x: Pipe) {
    forall k, o :: 0 <= k < |x.consumer.log| && 0 <= o < |x.consumer.log[k]| && x.consumer.log[k][o].Good? ==>
      x.consumer.log[k][o].batch.worker in x.workers
  }

  ghost predicate Inv(x: Pipe) {
    && x.batchSize > 0
    && C.Inv(x.consumer)
    && (forall w :: w in x.workers ==> WorkerOk(w, x.workers[w], x.batchSize, x.consumer))
    && Known(x)
  }

  // ---- Steps of one worker that leave the log alone ----

  // w's new state is sound, the rest is as before.
  lemma OneWorkerMoves(x: Pipe, w: string, wk: Worker)
    requires Inv(x) && w in x.workers && WorkerOk(w, wk, x.batchSize, x.consumer)
    ensures Inv(x.(workers := x.workers[w := wk]))
  {
    hide WorkerOk;
  }

  lemma SlotInv(w: string, wk: Worker, n: nat, c: C.World, p: string)
    requires n > 0 && C.Shaped(c) && WorkerOk(w, wk, n, c)
    ensures L.Inv(SlotOf(wk, p), n)
  {
    hide L.Inv, S.Inv, S.OfPoll;
    assert PollOk(w, wk, n, c, p);
    L.UnusedInv(n);
  }

  // What the poll's drainers have sent, one step later.
  lemma MessagesAfter(slot: L.Slot, e: L.Event, n: nat)
    ensures var (ms, out) := (L.Messages(slot.stream), L.Hands(slot, e));
            && |out| <= 1
            && L.Messages(L.Apply(slot, e, n).stream) == ms + (if out == [] then [] else [out[0].msg])
  {
  }

  lemma BatchesSnoc(w: string, p: string, ms: seq<B.OutMsg>, m: B.OutMsg)
    ensures Batches(w, p, ms + [m]) == Batches(w, p, ms) + [ToBatch(w, p, m)]
  {
  }

  // Another poll's slot and queue stay as they are.
  lemma StepKeepsOther(w: string, wk: Worker, n: nat, c: C.World, p: string, e: L.Event, q: string)
    requires n > 0 && C.Shaped(c) && WorkerOk(w, wk, n, c) && p != q && |wk.sender.shards| > 0
    ensures PollOk(w, BufferStep(w, wk, p, e, n), n, c, q)
  {
    hide L.Inv, S.Inv, S.OfPoll, L.Apply, L.Hands, Logged, L.Messages;
    assert PollOk(w, wk, n, c, q);
    var out := L.Hands(SlotOf(wk, p), e);
    if out != [] {
      S.OfPollSnoc(wk.sender.enqueued, ToBatch(w, p, out[0].msg), q);
    }
  }

  lemma StepKeepsOwn(w: string, wk: Worker, n: nat, c: C.World, p: string, e: L.Event)
    requires n > 0 && C.Shaped(c) && WorkerOk(w, wk, n, c) && p != "" && |wk.sender.shards| > 0
    ensures PollOk(w, BufferStep(w, wk, p, e, n), n, c, p)
  {
    hide L.Inv, S.Inv, S.OfPoll, L.Apply, L.Hands, Logged, L.Messages, Batches;
    var slot := SlotOf(wk, p);
    var out := L.Hands(slot, e);
    SlotInv(w, wk, n, c, p);
    L.ApplyKeepsInv(slot, e, n);
    MessagesAfter(slot, e, n);
    assert PollOk(w, wk, n, c, p);
    if out == [] {
      assert L.Messages(slot.stream) + [] == L.Messages(slot.stream);
    } else {
      S.OfPollSnoc(wk.sender.enqueued, ToBatch(w, p, out[0].msg), p);
      BatchesSnoc(w, p, L.Messages(slot.stream), out[0].msg);
    }
  }

  lemma StepKeepsWorker(w: string, wk: Worker, n: nat, c: C.World, p: string, e: L.Event)
    requires n > 0 && C.Shaped(c) && WorkerOk(w, wk, n, c) && p != "" && |wk.sender.shards| > 0
    ensures WorkerOk(w, BufferStep(w, wk, p, e, n), n, c)
  {
    hide L.Inv, S.Inv, PollOk;
    var out := L.Hands(SlotOf(wk, p), e);
    if out != [] {
      S.EnqueueKeepsInv(wk.sender, ToBatch(w, p, out[0].msg));
    }
    forall q
      ensures PollOk(w, BufferStep(w, wk, p, e, n), n, c, q)
    {
      if q == p {
        StepKeepsOwn(w, wk, n, c, p, e);
      } else {
        StepKeepsOther(w, wk, n, c, p, e, q);
      }
    }
  }

  // ---- A sender's step ----

  lemma OfWorkerSnoc(bs: seq<Batch>, b: Batch, w: string)
    ensures OfWorker(bs + [b], w) == OfWorker(bs, w) + (if b.worker == w then [b] else [])
  {
    assert (bs + [b])[..|bs|] == bs;
  }

  lemma LoggedAfter(c: C.World, b: Batch, w: string, p: string)
    requires C.Shaped(c) && b.poll != ""
    ensures var c' := C.Apply(c, C.Append(c.route(b.poll), C.Good(b)));
            && C.Shaped(c') && c'.route == c.route
            && Logged(c', w, p) == Logged(c, w, p) + (if b.poll == p && b.worker == w then [b] else [])
  {
    hide C.ForPoll, OfWorker;
    var k := c.route(p);
    var c' := C.Apply(c, C.Append(c.route(b.poll), C.Good(b)));
    var before := C.ForPoll(c.log[k], p);
    assert C.Routed(c, c.route(b.poll), C.Good(b));
    C.ForPollSnoc(c.log[k], C.Good(b), p);
    OfWorkerSnoc(before, b, w);
    if k == c.route(b.poll) {
      assert c'.log[k] == c.log[k] + [C.Good(b)];
      assert before + [] == before;
    }
  }

  // Whatever a sender holds, or has afloat, came out of a buffer of its own worker.
  lemma BatchIsOwn(w: string, wk: Worker, n: nat, c: C.World, e: S.Event)
    requires n > 0 && C.Shaped(c) && WorkerOk(w, wk, n, c) && WrittenBy(wk.sender, e) != []
    ensures var b := WrittenBy(wk.sender, e)[0]; b.worker == w && b.poll != ""
  {
    hide L.Inv, S.OfPoll, S.Delivered, S.Causal;
    var b := WrittenBy(wk.sender, e)[0];
    assert PollOk(w, wk, n, c, b.poll);
    assert S.InOrder(wk.sender, b.poll);
    if e.Attempt? {
      assert b in wk.sender.shards[e.shard].queue + wk.sender.shards[e.shard].current;
      S.OfPollMembers(wk.sender.shards[e.shard].current, b.poll);
    } else {
      var shard := wk.sender.shards[S.Home(wk.sender, b.poll)];
      var items := S.OfPoll(wk.sender.produced, b.poll) + S.OfPoll(shard.current, b.poll);
      assert S.MayFollow(S.OfPoll(wk.sender.appended, b.poll), items, b);
      assert b in items;
    }
    assert b in S.OfPoll(wk.sender.enqueued, b.poll);
  }

  lemma SendKeepsWorker(w: string, wk: Worker, n: nat, c: C.World, e: S.Event)
    requires n > 0 && C.Shaped(c) && WorkerOk(w, wk, n, c) && !e.Enqueue?
    ensures var out := WrittenBy(wk.sender, e);
            var c' := if out == [] then c else C.Apply(c, C.Append(c.route(out[0].poll), C.Good(out[0])));
            C.Shaped(c') && WorkerOk(w, wk.(sender := S.Apply(wk.sender, e)), n, c')
  {
    hide B.Inv, S.Inv, S.OfPoll, Logged;
    var out := WrittenBy(wk.sender, e);
    S.ApplyKeepsInv(wk.sender, e);
    var wk' := wk.(sender := S.Apply(wk.sender, e));
    if out == [] {
      forall p ensures PollOk(w, wk', n, c, p) { assert PollOk(w, wk, n, c, p); }
    } else {
      var c' := C.Apply(c, C.Append(c.route(out[0].poll), C.Good(out[0])));
      BatchIsOwn(w, wk, n, c, e);
      LoggedAfter(c, out[0], w, "");
      forall p
        ensures PollOk(w, wk', n, c', p)
      {
        assert PollOk(w, wk, n, c, p);
        LoggedAfter(c, out[0], w, p);
        S.OfPollSnoc(wk.sender.appended, out[0], p);
      }
    }
  }

  // The other workers do not see the write.
  lemma WriteKeepsOthers(u: string, wk: Worker, n: nat, c: C.World, b: Batch)
    requires n > 0 && C.Shaped(c) && WorkerOk(u, wk, n, c) && b.worker != u && b.poll != ""
    ensures var c' := C.Apply(c, C.Append(c.route(b.poll), C.Good(b)));
            C.Shaped(c') && WorkerOk(u, wk, n, c')
  {
    hide B.Inv, S.Inv, S.OfPoll, Logged;
    var c' := C.Apply(c, C.Append(c.route(b.poll), C.Good(b)));
    LoggedAfter(c, b, u, "");
    forall p
      ensures PollOk(u, wk, n, c', p)
    {
      assert PollOk(u, wk, n, c, p);
      LoggedAfter(c, b, u, p);
    }
  }

  // ---- All steps ----

  lemma WriteKeepsKnown(x: Pipe, b: Batch)
    requires C.Shaped(x.consumer) && Known(x) && b.worker in x.workers && b.poll != ""
    ensures Known(x.(consumer := C.Apply(x.consumer, C.Append(x.consumer.route(b.poll), C.Good(b)))))
  {
  }

  lemma SendKeepsInv(x: Pipe, w: string, e: S.Event)
    requires Inv(x) && w in x.workers && !e.Enqueue?
    ensures Inv(Apply(x, Send(w, e)))
  {
    hide C.Inv, S.Inv, WorkerOk;
    C.ShapedByInv(x.consumer);
    var wk := x.workers[w];
    SendersExist(x);
    SendKeepsWorker(w, wk, x.batchSize, x.consumer, e);
    var out := WrittenBy(wk.sender, e);
    if out == [] {
      OneWorkerMoves(x, w, wk.(sender := S.Apply(wk.sender, e)));
    } else {
      var b := out[0];
      BatchIsOwn(w, wk, x.batchSize, x.consumer, e);
      C.ApplyKeepsInv(x.consumer, C.Append(x.consumer.route(b.poll), C.Good(b)));
      var x' := Apply(x, Send(w, e));
      forall u | u in x'.workers
        ensures WorkerOk(u, x'.workers[u], x'.batchSize, x'.consumer)
      {
        if u != w { WriteKeepsOthers(u, x.workers[u], x.batchSize, x.consumer, b); }
      }
      WriteKeepsKnown(x, b);
    }
  }

  lemma SendersExist(x: Pipe)
    requires Inv(x)
    ensures Runnable(x)
  {
    forall w | w in x.workers ensures |x.workers[w].sender.shards| > 0 {
      assert WorkerOk(w, x.workers[w], x.batchSize, x.consumer);
    }
  }

  // The consumer only reads what concerns the workers; garbage is not theirs.
  lemma GarbageIsIgnored(c: C.World, e: C.Event, w: string, p: string)
    requires C.Shaped(c) && (e.Append? ==> e.payload.Malformed?)
    ensures var c' := C.Apply(c, e);
            |c'.log| == |c.log| && c'.route == c.route
            && C.ForPoll(c'.log[c.route(p)], p) == C.ForPoll(c.log[c.route(p)], p)
  {
    hide C.ForPoll;
    hide Claims, BeginFlush, EndFlush, Learn, Cut, CutLength, Commits, Cleanup, C.HandleNext, C.LastOffset;
    if e.Append? && e.p < |c.log| {
      C.ForPollSnoc(c.log[c.route(p)], C.Malformed, p);
      assert C.ForPoll(c.log[c.route(p)], p) + [] == C.ForPoll(c.log[c.route(p)], p);
    }
  }

  lemma GarbageKeepsKnown(x: Pipe, e: C.Event)
    requires C.Shaped(x.consumer) && Known(x) && (e.Append? ==> e.payload.Malformed?)
    ensures Known(x.(consumer := C.Apply(x.consumer, e)))
  {
    hide Claims, BeginFlush, EndFlush, Learn, Cut, CutLength, Commits, Cleanup, C.HandleNext, C.LastOffset;
    hide C.Store.FlushRow, C.Store.FlushReply;
  }

  lemma ConsumeKeepsInv(x: Pipe, e: C.Event)
    requires Inv(x) && (e.Append? ==> e.payload.Malformed?)
    ensures Inv(x.(consumer := C.Apply(x.consumer, e)))
  {
    hide C.Inv, C.Apply, S.Inv, B.Inv, S.OfPoll, C.ForPoll;
    C.ShapedByInv(x.consumer);
    C.ApplyKeepsInv(x.consumer, e);
    var c' := C.Apply(x.consumer, e);
    C.ShapedByInv(c');
    forall w | w in x.workers
      ensures WorkerOk(w, x.workers[w], x.batchSize, c')
    {
      assert WorkerOk(w, x.workers[w], x.batchSize, x.consumer);
      forall p
        ensures PollOk(w, x.workers[w], x.batchSize, c', p)
      {
        assert PollOk(w, x.workers[w], x.batchSize, x.consumer, p);
        GarbageIsIgnored(x.consumer, e, w, p);
      }
    }
    GarbageKeepsKnown(x, e);
  }

  lemma ApplyKeepsInv(x: Pipe, e: Event)
    requires Inv(x)
    ensures Runnable(x) && Inv(Apply(x, e))
  {
    hide C.Inv, C.Apply, S.Inv, B.Inv, WorkerOk, Known;
    SendersExist(x);
    match e
    case Buffer(w, p, step) =>
      if w in x.workers && p != "" {
        StepKeepsWorker(w, x.workers[w], x.batchSize, x.consumer, p, step);
        OneWorkerMoves(x, w, BufferStep(w, x.workers[w], p, step, x.batchSize));
      }
    case Send(w, se) => if w in x.workers && !se.Enqueue? { SendKeepsInv(x, w, se); }
    case Consume(ce) => if !(ce.Append? && ce.payload.Good?) { ConsumeKeepsInv(x, ce); }
  }

  ghost predicate Initial(x: Pipe) {
    && x.batchSize > 0
    && C.Initial(x.consumer)
    && forall w :: w in x.workers ==>
         && w != "" && x.workers[w].slots == map[]
         && exists n: nat, capacity: nat :: n > 0 && x.workers[w].sender == S.Initial(n, capacity)
  }

  lemma InitialInv(x: Pipe)
    requires Initial(x)
    ensures Inv(x)
  {
    C.InitialInv(x.consumer);
    hide C.Inv, S.Inv, B.Inv;
    forall w | w in x.workers
      ensures WorkerOk(w, x.workers[w], x.batchSize, x.consumer)
    {
      var n: nat, capacity: nat :| n > 0 && x.workers[w].sender == S.Initial(n, capacity);
      S.InitialInv(n, capacity);
      forall p ensures PollOk(w, x.workers[w], x.batchSize, x.consumer, p) { }
    }
  }

  /** Every run keeps the invariant: any workers, any interleaving, any failures and crashes of
      the consumer. */
  ghost function Run(x: Pipe, es: seq<Event>): (r: Pipe)
    requires Inv(x)
    ensures Inv(r)
  {
    if es == [] then x
    else
      var init := Run(x, es[..|es| - 1]);
      ApplyKeepsInv(init, es[|es| - 1]);
      Apply(init, es[|es| - 1])
  }

  // The whole system after a run from the start.
  ghost function Reach(x0: Pipe, es: seq<Event>): (x: Pipe)
    requires Initial(x0)
    ensures Inv(x)
  {
    InitialInv(x0);
    Run(x0, es)
  }

  // ---- Reading part of the log ----

  lemma {:induction false} ForPollPrefix(l: seq<C.Payload>, n: nat, p: string)
    requires n <= |l|
    ensures C.ForPoll(l[..n], p) <= C.ForPoll(l, p)
  {
    if n < |l| {
      var init := l[..|l| - 1];
      assert l == init + [l[|l| - 1]] && l[..n] == init[..n];
      ForPollPrefix(init, n, p);
      C.ForPollSnoc(init, l[|l| - 1], p);
    } else {
      assert l[..n] == l;
    }
  }

  lemma {:induction false} OfWorkerPrefix(a: seq<Batch>, b: seq<Batch>, w: string)
    requires a <= b
    ensures OfWorker(a, w) <= OfWorker(b, w)
  {
    if |a| < |b| {
      OfWorkerPrefix(a, b[..|b| - 1], w);
    } else {
      assert a == b;
    }
  }

  lemma {:induction false} OfWorkerMembers(bs: seq<Batch>, w: string)
    ensures forall b :: b in OfWorker(bs, w) <==> b in bs && b.worker == w
  {
    if bs == [] {
    } else {
      OfWorkerMembers(bs[..|bs| - 1], w);
      assert bs == bs[..|bs| - 1] + [bs[|bs| - 1]];
    }
  }

  lemma {:induction false} ForPollMembers(l: seq<C.Payload>, p: string)
    ensures forall b :: b in C.ForPoll(l, p) <==> C.Good(b) in l && b.poll == p
  {
    if l == [] {
    } else {
      ForPollMembers(l[..|l| - 1], p);
      assert l == l[..|l| - 1] + [l[|l| - 1]];
    }
  }

  // What the consumer has read of one worker's batches for a poll.
  ghost function ReadFrom(c: C.World, w: string, p: string): seq<Batch>
    requires C.Shaped(c)
  {
    OfWorker(C.ReadOf(c, p), w)
  }

  /** Whatever the consumer has read of a worker's batches for a poll is, but for repetitions, a
      beginning of what its drainers sent; in their order, if no write landed late. */
  lemma ReadIsABeginning(x: Pipe, w: string, p: string) returns (k: nat)
    requires Inv(x) && w in x.workers && p != ""
    ensures var ms := L.Messages(SlotOf(x.workers[w], p).stream);
            && k <= |ms|
            && (forall b :: b in ReadFrom(x.consumer, w, p) <==> b in Batches(w, p, ms[..k]))
            && (x.workers[w].sender.late == 0 ==> S.Repeats(ReadFrom(x.consumer, w, p), Batches(w, p, ms[..k])))
  {
    hide L.Inv, L.Messages, Batches, S.Repeats, S.Causal, S.MayFollow, S.OfPoll, C.ForPoll, OfWorker;
    C.ShapedByInv(x.consumer);
    var (c, wk) := (x.consumer, x.workers[w]);
    assert WorkerOk(w, wk, x.batchSize, c) && PollOk(w, wk, x.batchSize, c, p);
    var s := wk.sender;
    var (l, logged, read) := (c.log[c.route(p)], Logged(c, w, p), ReadFrom(c, w, p));
    ForPollPrefix(l, c.fetched[c.route(p)], p);
    OfWorkerPrefix(C.ReadOf(c, p), C.ForPoll(l, p), w);
    assert read == logged[..|read|];
    assert S.InOrder(s, p);
    var (produced, current, queue) := (S.OfPoll(s.produced, p), S.OfPoll(s.shards[S.Home(s, p)].current, p),
                                       S.OfPoll(s.shards[S.Home(s, p)].queue, p));
    if s.late == 0 {
      k := S.DeliveredPrefix(logged, produced, current, |read|);
      S.RepeatsMembers(read, (produced + current)[..k]);
    } else {
      S.CausalPrefix(logged, produced + current, |read|);
      k := S.CausalIsABeginning(read, produced + current);
    }
    var ms := L.Messages(SlotOf(wk, p).stream);
    assert produced + current + queue == Batches(w, p, ms);
    assert (produced + current)[..k] == Batches(w, p, ms)[..k];
    BatchesOfPrefix(w, p, ms, k);
  }

  lemma BatchesOfPrefix(w: string, p: string, ms: seq<B.OutMsg>, k: nat)
    requires k <= |Batches(w, p, ms)|
    ensures k <= |ms| && Batches(w, p, ms)[..k] == Batches(w, p, ms[..k])
  {
  }

  lemma {:induction false} VoteIsInSomeMessage(ms: seq<B.OutMsg>, v: Vote)
    requires v in B.Flatten(ms)
    ensures exists i :: 0 <= i < |ms| && v in ms[i].votes
  {
    if ms == [] {
    } else {
      var init := ms[..|ms| - 1];
      if v !in ms[|ms| - 1].votes {
        VoteIsInSomeMessage(init, v);
        var i :| 0 <= i < |init| && v in init[i].votes;
        assert ms[i] == init[i];
      }
    }
  }

  lemma {:induction false} MessageVotesAreFlattened(ms: seq<B.OutMsg>, i: nat)
    requires i < |ms|
    ensures forall v :: v in ms[i].votes ==> v in B.Flatten(ms)
  {
    if i == |ms| - 1 {
    } else {
      assert ms[..|ms| - 1][i] == ms[i];
      MessageVotesAreFlattened(ms[..|ms| - 1], i);
    }
  }

  // A done mark in what was read: all that was sent up to one of the worker's marks was read.
  lemma MarkIsRead(x: Pipe, w: string, p: string, b: Batch) returns (j: nat)
    requires Inv(x) && w in x.workers && p != ""
    requires b in C.ReadOf(x.consumer, p) && b.worker == w && b.done
    ensures var stream := SlotOf(x.workers[w], p).stream;
            && j < |stream| && stream[j].msg.done
            && forall i :: 0 <= i <= j ==> ToBatch(w, p, stream[i].msg) in C.ReadOf(x.consumer, p)
  {
    hide Inv, C.ReadOf, OfWorker, S.Repeats, SlotOf;
    C.ShapedByInv(x.consumer) by { ConsumerInv(x); }
    var stream := SlotOf(x.workers[w], p).stream;
    var ms, read := L.Messages(stream), ReadFrom(x.consumer, w, p);
    var k := ReadIsABeginning(x, w, p);
    OfWorkerMembers(C.ReadOf(x.consumer, p), w);
    assert b in Batches(w, p, ms[..k]);
    j :| 0 <= j < k && Batches(w, p, ms[..k])[j] == b;
    forall i | 0 <= i <= j
      ensures ToBatch(w, p, stream[i].msg) in C.ReadOf(x.consumer, p)
    {
      assert Batches(w, p, ms[..k])[i] in read;
    }
  }

  lemma ConsumerInv(x: Pipe)
    requires Inv(x)
    ensures C.Inv(x.consumer) && x.batchSize > 0
  {
    hide C.Inv;
  }

  lemma SlotIsSound(x: Pipe, w: string, p: string)
    requires Inv(x) && w in x.workers
    ensures x.batchSize > 0 && L.Inv(SlotOf(x.workers[w], p), x.batchSize)
  {
    hide C.Inv, L.Inv;
    C.ShapedByInv(x.consumer);
    assert WorkerOk(w, x.workers[w], x.batchSize, x.consumer);
    SlotInv(w, x.workers[w], x.batchSize, x.consumer, p);
  }

  lemma {:induction false} OfLifeMembers(stream: seq<L.Sent>, life: nat)
    ensures forall m :: m in L.OfLife(stream, life) <==> exists j :: 0 <= j < |stream| && stream[j] == L.Sent(life, m)
  {
    if stream == [] {
    } else {
      var init, last := stream[..|stream| - 1], stream[|stream| - 1];
      OfLifeMembers(init, life);
      assert stream == init + [last];
      forall m | m in L.OfLife(stream, life)
        ensures exists j :: 0 <= j < |stream| && stream[j] == L.Sent(life, m)
      {
        if m in L.OfLife(init, life) {
          var j :| 0 <= j < |init| && init[j] == L.Sent(life, m);
          assert stream[j] == L.Sent(life, m);
        } else {
          assert stream[|init|] == L.Sent(life, m);
        }
      }
      forall m | exists j :: 0 <= j < |stream| && stream[j] == L.Sent(life, m)
        ensures m in L.OfLife(stream, life)
      {
        var j :| 0 <= j < |stream| && stream[j] == L.Sent(life, m);
        if j < |init| {
          assert init[j] == L.Sent(life, m);
        }
      }
    }
  }

  // Every vote of a lifetime the mark covers stands in a message that was read.
  lemma CoveredVoteIsRead(x: Pipe, w: string, p: string, j: nat, i: nat, v: Vote)
    requires Inv(x) && w in x.workers && p != ""
    requires var stream := SlotOf(x.workers[w], p).stream;
             && j < |stream| && stream[j].msg.done && i <= stream[j].life
             && forall q :: 0 <= q <= j ==> ToBatch(w, p, stream[q].msg) in C.ReadOf(x.consumer, p)
    requires i < |L.Lives(SlotOf(x.workers[w], p))| && v in L.Lives(SlotOf(x.workers[w], p))[i].accepted
    ensures exists b :: b in C.ReadOf(x.consumer, p) && b.worker == w && v in b.votes
  {
    hide Inv, C.ReadOf, L.Inv, L.OfLife, B.Flatten, SlotOf;
    var slot := SlotOf(x.workers[w], p);
    SlotIsSound(x, w, p);
    L.MarkerCovers(slot, x.batchSize, j, i);
    var sent := L.OfLife(slot.stream[..j], i);
    VoteIsInSomeMessage(sent, v);
    var k :| 0 <= k < |sent| && v in sent[k].votes;
    OfLifeMembers(slot.stream[..j], i);
    assert sent[k] in sent;
    var q :| 0 <= q < j && slot.stream[..j][q] == L.Sent(i, sent[k]);
    assert v in ToBatch(w, p, slot.stream[q].msg).votes;
  }

  // ---- The barrier ----

  // The voters of all lifetimes of a poll's buffer.
  function AcceptedBy(slot: L.Slot): set<string> {
    set i, j | 0 <= i < |L.Lives(slot)| && 0 <= j < |L.Lives(slot)[i].accepted| ::
      L.Lives(slot)[i].accepted[j].fingerprint
  }

  // No vote was accepted after the poll's first buffer was dropped.
  predicate OnlyFirst(slot: L.Slot) {
    forall i :: 1 <= i < |L.Lives(slot)| ==> L.Lives(slot)[i].accepted == []
  }

  /** The end-to-end barrier: until a poll's first flush has succeeded, once the consumer counts a
      worker as done, one of the lifetimes of the worker's buffer for the poll is closed, and
      every vote accepted in it or in an earlier one stands, fingerprint and option, in a batch
      of the worker that was read, and has its fingerprint in the dedup set. */
  lemma BarrierHolds(x: Pipe, w: string, p: string) returns (life: nat)
    requires Inv(x) && p != ""
    requires w in x.workers && p !in x.consumer.flushedPolls
             && p in x.consumer.mem.polls && w in x.consumer.mem.polls[p].tally.doneBy
    ensures var lives := L.Lives(SlotOf(x.workers[w], p));
            && life < |lives| && lives[life].closed
            && (forall i :: 0 <= i <= life ==> FingerprintsOf(lives[i].accepted) <= x.consumer.mem.polls[p].tally.dedup)
            && C.Shaped(x.consumer)
            && forall i, v :: 0 <= i <= life && v in lives[i].accepted ==>
                 exists b :: b in C.ReadOf(x.consumer, p) && b.worker == w && v in b.votes
  {
    hide Inv, C.ReadOf, AbsorbAll, L.Inv, L.OfLife, B.Flatten, SlotOf;
    ConsumerInv(x);
    C.TallyIsTheFold(x.consumer, p);
    var slot, read := SlotOf(x.workers[w], p), C.ReadOf(x.consumer, p);
    WorkerMembers(read);
    DedupMembers(read);
    var b :| b in read && b.worker == w && b.done;
    var j := MarkIsRead(x, w, p, b);
    SlotIsSound(x, w, p);
    life := slot.stream[j].life;
    L.MarkerCovers(slot, x.batchSize, j, life);
    forall i, v | 0 <= i <= life && v in L.Lives(slot)[i].accepted
      ensures exists c :: c in read && c.worker == w && v in c.votes
    {
      CoveredVoteIsRead(x, w, p, j, i, v);
    }
    forall i, f | 0 <= i <= life && f in FingerprintsOf(L.Lives(slot)[i].accepted)
      ensures f in AbsorbAll(read).dedup
    {
      var k :| 0 <= k < |L.Lives(slot)[i].accepted| && L.Lives(slot)[i].accepted[k].fingerprint == f;
      var v := L.Lives(slot)[i].accepted[k];
      assert v in L.Lives(slot)[i].accepted;
      var c :| c in read && c.worker == w && v in c.votes;
      var l :| 0 <= l < |c.votes| && c.votes[l] == v;
      assert c.votes[l].fingerprint in FingerprintsOf(c.votes);
    }
  }

  lemma FirstLifeIsAll(slot: L.Slot, covered: set<string>)
    requires OnlyFirst(slot) && (L.Lives(slot) != [] ==> FingerprintsOf(L.Lives(slot)[0].accepted) <= covered)
    ensures AcceptedBy(slot) <= covered
  {
    hide L.Lives;
    forall f | f in AcceptedBy(slot)
      ensures f in covered
    {
      var i, j :| 0 <= i < |L.Lives(slot)| && 0 <= j < |L.Lives(slot)[i].accepted|
                  && L.Lives(slot)[i].accepted[j].fingerprint == f;
      assert i == 0;
      assert L.Lives(slot)[0].accepted[j].fingerprint in FingerprintsOf(L.Lives(slot)[0].accepted);
    }
  }

  /** The barrier over whole runs, whatever the interleaving of workers, cleanups, late writes, log
      and consumer: a worker counted as done has closed the poll's first buffer, which accepts no
      more, and if no later buffer accepted a vote, every vote it ever accepted is counted. */
  lemma DoneMeansEveryVoteCounted(x0: Pipe, es: seq<Event>, w: string, p: string, more: Vote)
    requires Initial(x0) && p != ""
    requires var x := Reach(x0, es);
             w in x.workers && p !in x.consumer.flushedPolls
             && p in x.consumer.mem.polls && w in x.consumer.mem.polls[p].tally.doneBy
    ensures var x := Reach(x0, es);
            var (slot, dedup) := (SlotOf(x.workers[w], p), x.consumer.mem.polls[p].tally.dedup);
            && L.Lives(slot) != []
            && var first := L.Lives(slot)[0];
               && first.closed
               && B.AddVote(first, more, x.batchSize).accepted == first.accepted
               && FingerprintsOf(first.accepted) <= dedup
               && (OnlyFirst(slot) ==> AcceptedBy(slot) <= dedup)
  {
    hide Inv, Run, L.Lives, OnlyFirst, AcceptedBy;
    var x := Reach(x0, es);
    var slot := SlotOf(x.workers[w], p);
    var life := BarrierHolds(x, w, p);
    SlotIsSound(x, w, p);
    FirstIsClosed(slot, x.batchSize, life);
    if OnlyFirst(slot) {
      FirstLifeIsAll(slot, x.consumer.mem.polls[p].tally.dedup);
    }
  }

  lemma FirstIsClosed(slot: L.Slot, n: nat, life: nat)
    requires n > 0 && L.Inv(slot, n) && life < |L.Lives(slot)| && L.Lives(slot)[life].closed
    ensures L.Lives(slot)[0].closed
  {
    hide L.Streamed, B.Inv;
  }

  // ---- What the messages carry ----

  // Field by field: a batch is a message of a worker's stream for a poll.
  predicate Carries(b: Batch, w: string, p: string, m: B.OutMsg) {
    b.worker == w && b.poll == p && b.votes == m.votes && b.done == m.done
  }

  // The batch is one of the first k messages of the stream.
  predicate WasSent(b: Batch, w: string, p: string, stream: seq<L.Sent>, k: nat)
    requires k <= |stream|
  {
    exists j :: 0 <= j < k && Carries(b, w, p, stream[j].msg)
  }

  // The message is one of the batches.
  predicate IsAmong(m: B.OutMsg, w: string, p: string, bs: seq<Batch>) {
    exists b :: b in bs && Carries(b, w, p, m)
  }

  lemma BatchesCarry(w: string, p: string, stream: seq<L.Sent>, k: nat)
    requires k <= |stream| == |L.Messages(stream)|
    ensures var bs := Batches(w, p, L.Messages(stream)[..k]);
            |bs| == k && forall j :: 0 <= j < k ==> Carries(bs[j], w, p, stream[j].msg)
  {
    forall j | 0 <= j < k
      ensures Carries(Batches(w, p, L.Messages(stream)[..k])[j], w, p, stream[j].msg)
    {
      assert L.Messages(stream)[..k][j] == stream[j].msg;
    }
  }

  lemma MembersCarry(read: seq<Batch>, bs: seq<Batch>, w: string, p: string, stream: seq<L.Sent>, k: nat)
    requires |bs| == k <= |stream| && forall j :: 0 <= j < k ==> Carries(bs[j], w, p, stream[j].msg)
    requires forall b :: b in read && b.worker == w ==> b in bs
    requires forall b :: b in bs ==> b in read
    ensures forall b :: b in read && b.worker == w ==> WasSent(b, w, p, stream, k)
    ensures forall j :: 0 <= j < k ==> IsAmong(stream[j].msg, w, p, read)
  {
    hide Carries;
    forall b | b in read && b.worker == w
      ensures WasSent(b, w, p, stream, k)
    {
      var j :| 0 <= j < k && bs[j] == b;
    }
    forall j | 0 <= j < k
      ensures IsAmong(stream[j].msg, w, p, read)
    {
      assert bs[j] in bs;
    }
  }

  /** What is read of a worker for a poll is what its drainers sent, unchanged in every field: each
      batch is one of the first k messages sent, and each of these is there. */
  lemma ReadIsSentUnchanged(x: Pipe, w: string, p: string) returns (k: nat)
    requires Inv(x) && w in x.workers && p != ""
    ensures C.Shaped(x.consumer)
    ensures var (read, stream) := (C.ReadOf(x.consumer, p), SlotOf(x.workers[w], p).stream);
            && k <= |stream|
            && (forall b :: b in read && b.worker == w ==> WasSent(b, w, p, stream, k))
            && (forall j :: 0 <= j < k ==> IsAmong(stream[j].msg, w, p, read))
  {
    hide Inv, C.ReadOf, C.Shaped, OfWorker, S.Repeats, SlotOf, WasSent, IsAmong, Carries, Batches, L.Messages;
    ConsumerInv(x);
    C.ShapedByInv(x.consumer);
    k := ReadIsABeginning(x, w, p);
    var (read, stream) := (C.ReadOf(x.consumer, p), SlotOf(x.workers[w], p).stream);
    var bs := Batches(w, p, L.Messages(stream)[..k]);
    OfWorkerMembers(read, w);
    MessagesLength(stream);
    BatchesCarry(w, p, stream, k);
    MembersCarry(read, bs, w, p, stream, k);
  }

  lemma MessagesLength(stream: seq<L.Sent>)
    ensures |L.Messages(stream)| == |stream|
  {
  }

  /** Every vote in a batch that was read, fingerprint and option, was accepted by the batch's worker
      in some lifetime of its buffer for the poll. */
  lemma ReadVotesWereAccepted(x: Pipe, p: string, b: Batch, v: Vote)
    requires Inv(x) && p != "" && C.Shaped(x.consumer) && b in C.ReadOf(x.consumer, p) && v in b.votes
    ensures b.worker in x.workers
    ensures var lives := L.Lives(SlotOf(x.workers[b.worker], p));
            exists i :: 0 <= i < |lives| && v in lives[i].accepted
  {
    hide Inv, C.ReadOf, SlotOf, L.Lives;
    ReadIsKnown(x, p, b);
    var k := ReadIsSentUnchanged(x, b.worker, p);
    var stream := SlotOf(x.workers[b.worker], p).stream;
    var j :| 0 <= j < k && Carries(b, b.worker, p, stream[j].msg);
    SentWasAccepted(x, b.worker, p, j, v);
  }

  // ---- The exact total ----

  // The distinct voters among the votes all workers accepted for a poll.
  ghost function AcceptedFingerprints(x: Pipe, p: string): set<string> {
    set w, f | w in x.workers && f in AcceptedBy(SlotOf(x.workers[w], p)) :: f
  }

  // What was sent in a lifetime had been accepted in it.
  lemma SentWasAccepted(x: Pipe, w: string, p: string, j: nat, v: Vote)
    requires Inv(x) && w in x.workers
    requires j < |SlotOf(x.workers[w], p).stream| && v in SlotOf(x.workers[w], p).stream[j].msg.votes
    ensures v.fingerprint in AcceptedBy(SlotOf(x.workers[w], p))
    ensures exists i :: 0 <= i < |L.Lives(SlotOf(x.workers[w], p))| && v in L.Lives(SlotOf(x.workers[w], p))[i].accepted
  {
    hide Inv, L.OfLife, B.Flatten, B.Inv, SlotOf, L.Lives;
    var slot := SlotOf(x.workers[w], p);
    SlotIsSound(x, w, p);
    var life, m := slot.stream[j].life, slot.stream[j].msg;
    assert slot.stream[j] == L.Sent(life, m);
    OfLifeMembers(slot.stream, life);
    var sent := L.OfLife(slot.stream, life);
    var k :| 0 <= k < |sent| && sent[k] == m;
    MessageVotesAreFlattened(sent, k);
    L.LifeIsSound(slot, x.batchSize, life);
    B.Conserved(L.Lives(slot)[life], x.batchSize);
    assert v in L.Lives(slot)[life].accepted;
    var a :| 0 <= a < |L.Lives(slot)[life].accepted| && L.Lives(slot)[life].accepted[a] == v;
  }

  // Every well-formed message that was read came from a known worker.
  lemma ReadIsKnown(x: Pipe, p: string, b: Batch)
    requires Inv(x) && C.Shaped(x.consumer) && b in C.ReadOf(x.consumer, p)
    ensures b.worker in x.workers
  {
    hide C.Inv, C.ForPoll, WorkerOk;
    var c := x.consumer;
    var l := c.log[c.route(p)][..c.fetched[c.route(p)]];
    ForPollMembers(l, p);
    assert C.Good(b) in l;
    var o :| 0 <= o < |l| && l[o] == C.Good(b);
    assert c.log[c.route(p)][o] == C.Good(b);
  }

  /** Nothing is invented: a fingerprint in the dedup set was accepted by some worker. */
  lemma CountedWasAccepted(x: Pipe, p: string, f: string)
    requires Inv(x) && p != "" && p !in x.consumer.flushedPolls && p in x.consumer.mem.polls
    requires f in x.consumer.mem.polls[p].tally.dedup
    ensures f in AcceptedFingerprints(x, p)
  {
    hide Inv, C.ReadOf, AbsorbAll, OfWorker, S.Repeats, SlotOf, AcceptedBy;
    ConsumerInv(x);
    C.TallyIsTheFold(x.consumer, p);
    var read := C.ReadOf(x.consumer, p);
    DedupMembers(read);
    var b :| b in read && f in FingerprintsOf(b.votes);
    var w := b.worker;
    ReadIsKnown(x, p, b);
    var k := ReadIsABeginning(x, w, p);
    OfWorkerMembers(read, w);
    var stream := SlotOf(x.workers[w], p).stream;
    var ms := L.Messages(stream);
    assert b in Batches(w, p, ms[..k]);
    var j :| 0 <= j < k && Batches(w, p, ms[..k])[j] == b;
    var v :| 0 <= v < |b.votes| && b.votes[v].fingerprint == f;
    assert b.votes[v] in stream[j].msg.votes;
    SentWasAccepted(x, w, p, j, b.votes[v]);
  }

  // Every worker that accepted votes is in the set, and none of them accepted any after a cleanup.
  ghost predicate AcceptingAreIn(x: Pipe, p: string, workers: set<string>) {
    forall w :: w in x.workers && AcceptedBy(SlotOf(x.workers[w], p)) != {} ==>
      w in workers && OnlyFirst(SlotOf(x.workers[w], p))
  }

  /** With every accepting worker done, counted and accepted are the same voters. */
  lemma CountedAreTheAccepted(x: Pipe, p: string)
    requires Inv(x) && p != "" && p !in x.consumer.flushedPolls && p in x.consumer.mem.polls
    requires AcceptingAreIn(x, p, x.consumer.mem.polls[p].tally.doneBy)
    ensures x.consumer.mem.polls[p].tally.dedup == AcceptedFingerprints(x, p)
  {
    hide Inv, SlotOf, AcceptedBy, OnlyFirst, L.Lives;
    var dedup := x.consumer.mem.polls[p].tally.dedup;
    forall f | f in AcceptedFingerprints(x, p)
      ensures f in dedup
    {
      var w :| w in x.workers && f in AcceptedBy(SlotOf(x.workers[w], p));
      var life := BarrierHolds(x, w, p);
      FirstLifeIsAll(SlotOf(x.workers[w], p), dedup);
    }
    forall f | f in dedup ensures f in AcceptedFingerprints(x, p) { CountedWasAccepted(x, p, f); }
  }

  lemma ClaimTakesResults(c: C.World, t: nat, p: string, now: int)
    requires C.Inv(c) && p != "" && p !in c.flushedPolls
    requires C.PcOf(c, t) == C.Idle && Claims(c.mem, p, now, c.cfg)
    ensures var (pc, tally) := (C.PcOf(C.Apply(c, C.Begin(t, p, now)), t), c.mem.polls[p].tally);
            && pc.Flushing? && pc.poll == p && pc.results == ResultsOf(tally)
            && pc.results.total == |tally.dedup|
            && tally.doneBy <= tally.seen
  {
    hide C.ForPoll, AbsorbAll, C.PartitionOk, C.StateOk, C.ThreadOk, C.RowOk, QuorumReady;
    assert C.TallyOk(c, p);
    DoneWorkersWereSeen(C.ReadOf(c, p));
    TotalIsDistinctFingerprints(C.ReadOf(c, p));
  }

  // An idle goroutine finds a poll without a flush so far ready by a quorum that waives less than
  // one worker, and every worker that accepted a vote for it has been seen, and accepted none
  // after a cleanup.
  ghost predicate ExactQuorum(x: Pipe, t: nat, p: string, now: int) {
    var c := x.consumer;
    && p != "" && p !in c.flushedPolls && C.PcOf(c, t) == C.Idle && Claims(c.mem, p, now, c.cfg)
    && var tally := c.mem.polls[p].tally;
       && 0 < c.cfg.donePercent <= 100 && QuorumReady(tally, c.cfg)
       && |tally.seen| * (100 - c.cfg.donePercent) < 100
       && AcceptingAreIn(x, p, tally.seen)
  }

  // What the claim puts into the goroutine's hands.
  lemma ClaimIsExact(x: Pipe, t: nat, p: string, now: int)
    requires Inv(x) && ExactQuorum(x, t, p, now)
    ensures C.Shaped(x.consumer)
    ensures var pc := C.PcOf(C.Apply(x.consumer, C.Begin(t, p, now)), t);
            pc.Flushing? && pc.poll == p && pc.results.total == |AcceptedFingerprints(x, p)|
  {
    hide C.Inv, C.Apply, AcceptedFingerprints;
    C.ShapedByInv(x.consumer);
    ClaimTakesResults(x.consumer, t, p, now);
    MissingAtQuorum(x.consumer.mem.polls[p].tally, x.consumer.cfg);
    CountedAreTheAccepted(x, p);
  }

  /** The exact total: when a poll's first flush is claimed on a quorum that waives less than one
      worker, and every worker that accepted a vote for it has been seen, the results about to
      be flushed count every distinct voter among all accepted votes of all workers once. */
  lemma QuorumTotalIsExact(x0: Pipe, es: seq<Event>, t: nat, p: string, now: int)
    requires Initial(x0) && ExactQuorum(Reach(x0, es), t, p, now)
    ensures var x := Reach(x0, es);
            C.Shaped(x.consumer)
            && var pc := C.PcOf(C.Apply(x.consumer, C.Begin(t, p, now)), t);
               pc.Flushing? && pc.poll == p && pc.results.total == |AcceptedFingerprints(x, p)|
  {
    hide Inv, C.Apply, Run, AcceptedFingerprints, ExactQuorum;
    ClaimIsExact(Reach(x0, es), t, p, now);
  }

  // ---- The exact counts ----

  // All votes accepted for a poll, by all workers.
  ghost function AcceptedVotes(x: Pipe, p: string): set<Vote> {
    set w, i, j | w in x.workers && 0 <= i < |L.Lives(SlotOf(x.workers[w], p))|
                  && 0 <= j < |L.Lives(SlotOf(x.workers[w], p))[i].accepted|
      :: L.Lives(SlotOf(x.workers[w], p))[i].accepted[j]
  }

  ghost predicate NobodyVotesTwice(votes: set<Vote>) {
    forall v, u :: v in votes && u in votes && v.fingerprint == u.fingerprint ==> v.option == u.option
  }

  ghost function VotersOf(votes: set<Vote>, option: int): set<string> {
    set v | v in votes && v.option == option :: v.fingerprint
  }

  lemma VoteIsAccepted(x: Pipe, p: string, w: string, i: nat, v: Vote)
    requires w in x.workers && i < |L.Lives(SlotOf(x.workers[w], p))|
    requires v in L.Lives(SlotOf(x.workers[w], p))[i].accepted
    ensures v in AcceptedVotes(x, p)
  {
    hide L.Lives, SlotOf;
    var accepted := L.Lives(SlotOf(x.workers[w], p))[i].accepted;
    var j :| 0 <= j < |accepted| && accepted[j] == v;
  }

  lemma AcceptedVoteIsRead(x: Pipe, p: string, v: Vote)
    requires Inv(x) && p != "" && p !in x.consumer.flushedPolls && p in x.consumer.mem.polls
    requires AcceptingAreIn(x, p, x.consumer.mem.polls[p].tally.doneBy) && v in AcceptedVotes(x, p)
    ensures C.Shaped(x.consumer) && exists b :: b in C.ReadOf(x.consumer, p) && v in b.votes
  {
    hide Inv, L.Lives, SlotOf, C.ReadOf;
    var w, i, j :| w in x.workers && 0 <= i < |L.Lives(SlotOf(x.workers[w], p))|
                   && 0 <= j < |L.Lives(SlotOf(x.workers[w], p))[i].accepted|
                   && L.Lives(SlotOf(x.workers[w], p))[i].accepted[j] == v;
    assert v.fingerprint in AcceptedBy(SlotOf(x.workers[w], p));
    var life := BarrierHolds(x, w, p);
    assert i == 0;
    assert v in L.Lives(SlotOf(x.workers[w], p))[0].accepted;
    var b :| b in C.ReadOf(x.consumer, p) && b.worker == w && v in b.votes;
  }

  // The votes in what was read are the accepted votes.
  lemma ReadVotesAreTheAccepted(x: Pipe, p: string)
    requires Inv(x) && p != "" && p !in x.consumer.flushedPolls && p in x.consumer.mem.polls
    requires AcceptingAreIn(x, p, x.consumer.mem.polls[p].tally.doneBy)
    ensures C.Shaped(x.consumer)
    ensures forall v :: v in VotesOf(C.ReadOf(x.consumer, p)) <==> v in AcceptedVotes(x, p)
  {
    hide Inv, C.ReadOf, VotesOf, AcceptedVotes, L.Lives, SlotOf, AcceptingAreIn;
    C.ShapedByInv(x.consumer) by { ConsumerInv(x); }
    var read := C.ReadOf(x.consumer, p);
    VotesOfMembers(read);
    forall v | v in VotesOf(read)
      ensures v in AcceptedVotes(x, p)
    {
      var b :| b in read && v in b.votes;
      ReadVotesWereAccepted(x, p, b, v);
      var lives := L.Lives(SlotOf(x.workers[b.worker], p));
      var i :| 0 <= i < |lives| && v in lives[i].accepted;
      VoteIsAccepted(x, p, b.worker, i, v);
    }
    forall v | v in AcceptedVotes(x, p) ensures v in VotesOf(read) { AcceptedVoteIsRead(x, p, v); }
  }

  /** The exact counts: at the claim of the exact total, if nobody voted for two options, each option
      of the results has as many votes as distinct voters were accepted for it, and the options
      are those that were voted for. */
  lemma QuorumCountsAreExact(x: Pipe, t: nat, p: string, now: int)
    requires Inv(x) && ExactQuorum(x, t, p, now) && NobodyVotesTwice(AcceptedVotes(x, p))
    ensures C.Shaped(x.consumer)
    ensures var pc := C.PcOf(C.Apply(x.consumer, C.Begin(t, p, now)), t);
            && pc.Flushing? && pc.poll == p
            && (forall i :: 0 <= i < |pc.results.options| ==>
                  pc.results.options[i].count == |VotersOf(AcceptedVotes(x, p), pc.results.options[i].option)|)
            && (forall o :: (exists i :: 0 <= i < |pc.results.options| && pc.results.options[i].option == o)
                  <==> VotersOf(AcceptedVotes(x, p), o) != {})
  {
    hide Inv, C.Inv, C.Apply, AcceptedVotes, ResultsOf, C.ReadOf, AbsorbAll, VotesOf, CountVotes;
    ConsumerInv(x);
    C.ShapedByInv(x.consumer);
    ClaimTakesResults(x.consumer, t, p, now);
    MissingAtQuorum(x.consumer.mem.polls[p].tally, x.consumer.cfg);
    ReadVotesAreTheAccepted(x, p);
    C.TallyIsTheFold(x.consumer, p);
    CountsOfTheFold(C.ReadOf(x.consumer, p), AcceptedVotes(x, p));
    OptionsOfResults(x.consumer.mem.polls[p].tally, AcceptedVotes(x, p));
  }

  // A fold over these votes counts the voters of each option.
  lemma CountsOfTheFold(bs: seq<Batch>, votes: set<Vote>)
    requires NobodyVotesTwice(votes) && forall v :: v in VotesOf(bs) <==> v in votes
    ensures forall o :: CountOf(AbsorbAll(bs), o) == |VotersOf(votes, o)|
                        && (o in AbsorbAll(bs).counts <==> VotersOf(votes, o) != {})
  {
    hide AbsorbAll, VotesOf, CountVotes;
    AbsorbAllCounts(bs);
    forall o
      ensures CountOf(AbsorbAll(bs), o) == |VotersOf(votes, o)|
              && (o in AbsorbAll(bs).counts <==> VotersOf(votes, o) != {})
    {
      CountsAreVoters(VotesOf(bs), o);
      assert VotersFor(VotesOf(bs), o) == VotersOf(votes, o);
    }
  }

  lemma OptionsOfResults(t: Tally, votes: set<Vote>)
    requires forall o :: CountOf(t, o) == |VotersOf(votes, o)| && (o in t.counts <==> VotersOf(votes, o) != {})
    ensures var options := ResultsOf(t).options;
            && (forall i :: 0 <= i < |options| ==> options[i].count == |VotersOf(votes, options[i].option)|)
            && (forall o :: (exists i :: 0 <= i < |options| && options[i].option == o) <==> VotersOf(votes, o) != {})
  {
    hide ResultsOf, VotersOf, CountOf;
    var options := ResultsOf(t).options;
    forall o
      ensures (exists i :: 0 <= i < |options| && options[i].option == o) <==> o in t.counts
    {
      var ids := OptionIds(options);
      if i :| 0 <= i < |options| && options[i].option == o {
        assert ids[i] == o;
        assert o in ids;
      }
      if o in t.counts {
        assert o in ids;
        var i :| 0 <= i < |ids| && ids[i] == o;
        assert options[i].option == o;
      }
    }
  }

  // A stored result stays, whatever the workers and the consumer do.
  lemma {:induction false} StoredStays(x: Pipe, es: seq<Event>, p: string)
    requires Inv(x) && p in x.consumer.rows && x.consumer.rows[p].Completed?
    ensures p in Run(x, es).consumer.rows && Run(x, es).consumer.rows[p] == x.consumer.rows[p]
  {
    hide Inv, Apply;
    if es == [] {
    } else {
      StoredStays(x, es[..|es| - 1], p);
      StoredStaysOnce(Run(x, es[..|es| - 1]), es[|es| - 1], p);
    }
  }

  lemma StoredStaysOnce(x: Pipe, e: Event, p: string)
    requires Inv(x) && p in x.consumer.rows && x.consumer.rows[p].Completed?
    ensures Runnable(x) && p in Apply(x, e).consumer.rows && Apply(x, e).consumer.rows[p] == x.consumer.rows[p]
  {
    hide C.Inv, C.Apply, WorkerOk, Known, S.Inv, B.Inv;
    SendersExist(x);
    match e
    case Buffer(w, q, step) =>
    case Send(w, se) =>
      if w in x.workers && WrittenBy(x.workers[w].sender, se) != [] {
        var b := WrittenBy(x.workers[w].sender, se)[0];
        C.CompletedRowsStay(x.consumer, C.Append(x.consumer.route(b.poll), C.Good(b)), p);
      }
    case Consume(ce) => C.CompletedRowsStay(x.consumer, ce, p);
  }

  // The write of a flush in hand finds the row active.
  lemma WriteStores(x: Pipe, t: nat, fate: C.Fate)
    requires Inv(x) && C.PcOf(x.consumer, t).Flushing? && fate != C.NotDone
    requires var p := C.PcOf(x.consumer, t).poll; p in x.consumer.rows && x.consumer.rows[p].Active?
    ensures Runnable(x)
    ensures var x' := Apply(x, Consume(C.Attempt(t, fate))); var pc := C.PcOf(x.consumer, t);
            pc.poll in x'.consumer.rows && x'.consumer.rows[pc.poll] == C.Store.Completed(pc.results)
  {
    hide C.Inv, WorkerOk, Known;
    SendersExist(x);
  }

  /** The exact total, stored: if that claim is still in hand after any further run, and its write
      is the first to find the row active, then from there on, for good, the row holds the number
      of distinct voters among all votes accepted before the claim. */
  lemma StoredTotalIsExact(x: Pipe, t: nat, p: string, now: int, es: seq<Event>, fate: C.Fate, more: seq<Event>)
    requires Inv(x) && ExactQuorum(x, t, p, now) && fate != C.NotDone
    requires var x1 := Run(x, [Consume(C.Begin(t, p, now))]); var y := Run(x1, es);
             && C.PcOf(y.consumer, t) == C.PcOf(x1.consumer, t)
             && p in y.consumer.rows && y.consumer.rows[p].Active?
    ensures var y := Run(Run(x, [Consume(C.Begin(t, p, now))]), es);
            var z := Run(Run(y, [Consume(C.Attempt(t, fate))]), more);
            && p in z.consumer.rows && z.consumer.rows[p].Completed?
            && z.consumer.rows[p].results.total == |AcceptedFingerprints(x, p)|
  {
    hide Inv, Apply, Run, C.Apply, AcceptedFingerprints, ExactQuorum;
    ClaimIsExact(x, t, p, now);
    OneEvent(x, Consume(C.Begin(t, p, now)));
    BeginIsTheConsumers(x, t, p, now);
    var y := Run(Run(x, [Consume(C.Begin(t, p, now))]), es);
    WriteStores(y, t, fate);
    OneEvent(y, Consume(C.Attempt(t, fate)));
    StoredStays(Run(y, [Consume(C.Attempt(t, fate))]), more, p);
  }

  lemma OneEvent(x: Pipe, e: Event)
    requires Inv(x)
    ensures Runnable(x) && Run(x, [e]) == Apply(x, e)
  {
    hide Apply, Inv;
    ApplyKeepsInv(x, e);
    assert [e][..0] == [];
  }

  lemma BeginIsTheConsumers(x: Pipe, t: nat, p: string, now: int)
    requires Runnable(x)
    ensures Apply(x, Consume(C.Begin(t, p, now))).consumer == C.Apply(x.consumer, C.Begin(t, p, now))
  {
    hide C.Apply;
  }
}
