/** The sharded sender: one FIFO queue and one retrying worker per shard. The functions are
    its atomic actions; a run interleaves callers, workers and write outcomes in any way. */
module Sending {
  import opened Votes
  import opened Hashing

  // What one write to the log can come to. Unknown: stored, but reported as an error. TimedOut:
  // reported as an error while it is still under way; it may land at any time later, or never.
  datatype Outcome = Acked | Refused | Unknown | TimedOut

  // current is the batch the worker is retrying, at most one.
  datatype Shard = Shard(queue: seq<Batch>, current: seq<Batch>)

  // enqueued, produced and appended record, in order, what entered, what was acknowledged,
  // and what reached the log. afloat holds the timed-out writes that may still land, late
  // counts those that did.
  datatype State = State(shards: seq<Shard>, capacity: nat,
                         enqueued: seq<Batch>, produced: seq<Batch>, appended: seq<Batch>,
                         afloat: seq<Batch>, late: nat, failed: nat)

  datatype Event =
    | Enqueue(b: Batch)
    | Receive(shard: nat)
    | Attempt(shard: nat, outcome: Outcome)
    | Land(k: nat)

  function Home(s: State, poll: string): (i: nat)
    requires |s.shards| > 0
    ensures i < |s.shards|
  {
    ShardOf(poll, |s.shards|)
  }

  function SetShard(s: State, i: nat, shard: Shard): State
    requires i < |s.shards|
  {
    s.(shards := s.shards[i := shard])
  }

  // An action that cannot happen in a state leaves it as it is: the caller blocks.
  function Apply(s: State, e: Event): State
    requires |s.shards| > 0
  {
    match e
    case Enqueue(b) =>
      var i := Home(s, b.poll);
      var q := s.shards[i].queue;
      if |q| >= s.capacity then s
      else SetShard(s, i, s.shards[i].(queue := q + [b])).(enqueued := s.enqueued + [b])
    case Receive(i) =>
      if i >= |s.shards| || s.shards[i].current != [] || s.shards[i].queue == [] then s
      else SetShard(s, i, Shard(s.shards[i].queue[1..], [s.shards[i].queue[0]]))
    case Attempt(i, outcome) =>
      if i >= |s.shards| || s.shards[i].current == [] then s
      else
        var b := s.shards[i].current[0];
        (match outcome
         case Acked =>
           SetShard(s, i, s.shards[i].(current := []))
           .(produced := s.produced + [b], appended := s.appended + [b])
         case Refused => s.(failed := s.failed + 1)
         case Unknown => s.(failed := s.failed + 1, appended := s.appended + [b])
         case TimedOut => s.(failed := s.failed + 1, afloat := s.afloat + [b]))
    case Land(k) =>
      if k >= |s.afloat| then s
      else s.(appended := s.appended + [s.afloat[k]], afloat := s.afloat[..k] + s.afloat[k + 1..], late := s.late + 1)
  }

  function Run(s: State, es: seq<Event>): (s': State)
    requires |s.shards| > 0
    ensures |s'.shards| == |s.shards| && s'.capacity == s.capacity
  {
    if es == [] then s else Apply(Run(s, es[..|es| - 1]), es[|es| - 1])
  }

  function Initial(workers: nat, capacity: nat): State {
    State(seq(workers, _ => Shard([], [])), capacity, [], [], [], [], 0, 0)
  }

  function OfPoll(bs: seq<Batch>, poll: string): seq<Batch> {
    if bs == [] then []
    else
      var init := OfPoll(bs[..|bs| - 1], poll);
      if bs[|bs| - 1].poll == poll then init + [bs[|bs| - 1]] else init
  }

  lemma {:induction false} OfPollAppend(a: seq<Batch>, b: seq<Batch>, poll: string)
    ensures OfPoll(a + b, poll) == OfPoll(a, poll) + OfPoll(b, poll)
  {
    if b == [] {
      assert a + b == a;
    } else {
      assert (a + b)[..|a + b| - 1] == a + b[..|b| - 1];
      OfPollAppend(a, b[..|b| - 1], poll);
    }
  }

  lemma OfPollSnoc(a: seq<Batch>, b: Batch, poll: string)
    ensures OfPoll(a + [b], poll) == if b.poll == poll then OfPoll(a, poll) + [b] else OfPoll(a, poll)
  {
    assert (a + [b])[..|a|] == a;
  }

  lemma OfPollCons(b: Batch, rest: seq<Batch>, poll: string)
    ensures OfPoll([b] + rest, poll) == if b.poll == poll then [b] + OfPoll(rest, poll) else OfPoll(rest, poll)
  {
    OfPollAppend([b], rest, poll);
    assert [b][..0] == [];
  }

  lemma {:induction false} OfPollMembers(bs: seq<Batch>, poll: string)
    ensures forall b :: b in OfPoll(bs, poll) <==> b in bs && b.poll == poll
  {
    if bs == [] {
    } else {
      var init, last := bs[..|bs| - 1], bs[|bs| - 1];
      OfPollMembers(init, poll);
      assert bs == init + [last];
    }
  }

  // log is items with every item written one or more times, in order.
  ghost predicate Repeats(log: seq<Batch>, items: seq<Batch>) {
    if items == [] then log == []
    else
      && log != []
      && log[|log| - 1] == items[|items| - 1]
      && (Repeats(log[..|log| - 1], items[..|items| - 1]) || Repeats(log[..|log| - 1], items))
  }

  // Without late writes the log holds the acknowledged batches, and possibly copies of the one
  // being retried.
  ghost predicate Delivered(log: seq<Batch>, produced: seq<Batch>, current: seq<Batch>) {
    Repeats(log, produced) || (current != [] && Repeats(log, produced + current))
  }

  // A copy of b may come next: copies of all items before it are there.
  ghost predicate MayFollow(log: seq<Batch>, items: seq<Batch>, b: Batch) {
    exists k :: 0 <= k < |items| && items[k] == b && forall m :: 0 <= m < k ==> items[m] in log
  }

  // With late writes too, every copy in the log comes after copies of all earlier items.
  ghost predicate Causal(log: seq<Batch>, items: seq<Batch>) {
    forall j :: 0 <= j < |log| ==> MayFollow(log[..j], items, log[j])
  }

  ghost predicate AtHome(s: State) {
    forall i :: 0 <= i < |s.shards| ==>
      && |s.shards[i].current| <= 1
      && (forall b :: b in s.shards[i].queue + s.shards[i].current ==> ShardOf(b.poll, |s.shards|) == i)
  }

  ghost predicate InOrder(s: State, poll: string)
    requires |s.shards| > 0
  {
    var shard := s.shards[Home(s, poll)];
    && OfPoll(s.enqueued, poll)
       == OfPoll(s.produced, poll) + OfPoll(shard.current, poll) + OfPoll(shard.queue, poll)
    && Written(s, poll, OfPoll(s.produced, poll), OfPoll(shard.current, poll))
  }

  // What the log has, and may still get, of a poll.
  ghost predicate Written(s: State, poll: string, produced: seq<Batch>, current: seq<Batch>) {
    var log := OfPoll(s.appended, poll);
    && (s.late == 0 ==> Delivered(log, produced, current))
    && Causal(log, produced + current)
    && (forall b :: b in produced ==> b in log)
    && (forall b :: b in s.afloat && b.poll == poll ==> MayFollow(log, produced + current, b))
  }

  ghost predicate Inv(s: State) {
    |s.shards| > 0 && AtHome(s) && forall poll :: InOrder(s, poll)
  }

  lemma InitialInv(workers: nat, capacity: nat)
    requires workers > 0
    ensures Inv(Initial(workers, capacity))
  {
  }

  lemma FollowsAfterMore(log: seq<Batch>, items: seq<Batch>, x: Batch, b: Batch)
    requires MayFollow(log, items, b)
    ensures MayFollow(log + [x], items, b) && MayFollow(log, items + [x], b)
  {
    var k :| 0 <= k < |items| && items[k] == b && forall m :: 0 <= m < k ==> items[m] in log;
    assert (items + [x])[k] == b;
  }

  lemma CausalSnoc(log: seq<Batch>, items: seq<Batch>, b: Batch)
    requires Causal(log, items) && MayFollow(log, items, b)
    ensures Causal(log + [b], items)
  {
    hide MayFollow;
    forall j | 0 <= j < |log + [b]|
      ensures MayFollow((log + [b])[..j], items, (log + [b])[j])
    {
      assert (log + [b])[..j] == log[..j];
      assert j == |log| ==> log[..j] == log;
    }
  }

  lemma CausalMore(log: seq<Batch>, items: seq<Batch>, x: Batch)
    requires Causal(log, items)
    ensures Causal(log, items + [x])
  {
    hide MayFollow;
    forall j | 0 <= j < |log|
      ensures MayFollow(log[..j], items + [x], log[j])
    {
      FollowsAfterMore(log[..j], items, x, log[j]);
    }
  }

  // The batch being retried may always be written.
  lemma RetriedMayFollow(log: seq<Batch>, produced: seq<Batch>, b: Batch)
    requires forall x :: x in produced ==> x in log
    ensures MayFollow(log, produced + [b], b)
  {
    assert (produced + [b])[|produced|] == b;
  }

  lemma EnqueueKeepsOrder(s: State, b: Batch, poll: string)
    requires Inv(s) && |s.shards[Home(s, b.poll)].queue| < s.capacity
    ensures InOrder(Apply(s, Enqueue(b)), poll)
  {
    hide Fnv1a, Repeats, OfPoll, Causal, MayFollow;
    assert InOrder(s, poll);
    OfPollSnoc(s.enqueued, b, poll);
    OfPollSnoc(s.shards[Home(s, b.poll)].queue, b, poll);
  }

  lemma EnqueueKeepsInv(s: State, b: Batch)
    requires Inv(s)
    ensures Inv(Apply(s, Enqueue(b)))
  {
    hide Fnv1a, Repeats, OfPoll, InOrder;
    if |s.shards[Home(s, b.poll)].queue| < s.capacity {
      forall poll ensures InOrder(Apply(s, Enqueue(b)), poll) { EnqueueKeepsOrder(s, b, poll); }
    }
  }

  lemma SinglesOfPoll(b: Batch, poll: string)
    ensures OfPoll([], poll) == []
    ensures OfPoll([b], poll) == if b.poll == poll then [b] else []
  {
    OfPollSnoc([], b, poll);
    assert [] + [b] == [b];
  }

  // A batch has been taken up, and nothing of it has been written.
  lemma WrittenAfterReceive(s: State, poll: string, produced: seq<Batch>, b: Batch)
    requires Written(s, poll, produced, [])
    ensures Written(s, poll, produced, [b])
  {
    hide Repeats, OfPoll, Causal, MayFollow;
    var log := OfPoll(s.appended, poll);
    assert produced + [] == produced;
    CausalMore(log, produced, b);
    forall x | x in s.afloat && x.poll == poll
      ensures MayFollow(log, produced + [b], x)
    {
      FollowsAfterMore(log, produced, b, x);
    }
  }

  lemma ReceiveKeepsOrder(s: State, i: nat, poll: string)
    requires Inv(s) && i < |s.shards| && s.shards[i].current == [] && s.shards[i].queue != []
    ensures InOrder(Apply(s, Receive(i)), poll)
  {
    hide Fnv1a, OfPoll, Written;
    var s' := Apply(s, Receive(i));
    assert InOrder(s, poll);
    if Home(s, poll) == i {
      var q := s.shards[i].queue;
      assert q == [q[0]] + q[1..];
      OfPollCons(q[0], q[1..], poll);
      SinglesOfPoll(q[0], poll);
      var produced := OfPoll(s.produced, poll);
      if q[0].poll == poll {
        WrittenAfterReceive(s, poll, produced, q[0]);
        assert produced + [] + ([q[0]] + OfPoll(q[1..], poll)) == produced + [q[0]] + OfPoll(q[1..], poll);
      }
      WrittenIgnores(s, s', poll);
    } else {
      WrittenIgnores(s, s', poll);
    }
  }

  // The queues do not matter to what is written.
  lemma WrittenIgnores(s: State, s': State, poll: string)
    requires s'.appended == s.appended && s'.afloat == s.afloat && s'.late == s.late
    ensures forall produced, current :: Written(s, poll, produced, current) == Written(s', poll, produced, current)
  {
    hide OfPoll, Causal, MayFollow, Delivered;
  }

  lemma ReceiveKeepsInv(s: State, i: nat)
    requires Inv(s)
    ensures Inv(Apply(s, Receive(i)))
  {
    hide Fnv1a;
    var s' := Apply(s, Receive(i));
    if s' != s {
      var q := s.shards[i].queue;
      assert q == [q[0]] + q[1..];
      assert forall b :: b in s'.shards[i].queue + s'.shards[i].current ==>
                  b in s.shards[i].queue + s.shards[i].current;
      forall poll
        ensures InOrder(s', poll)
      {
        ReceiveKeepsOrder(s, i, poll);
      }
    }
  }

  lemma RetryWrites(log: seq<Batch>, produced: seq<Batch>, b: Batch)
    requires Delivered(log, produced, [b])
    ensures Repeats(log + [b], produced + [b])
  {
    assert (log + [b])[..|log|] == log && (produced + [b])[..|produced|] == produced;
  }

  // One more copy of the batch being retried, or one that was afloat, reaches the log.
  lemma WrittenAfterCopy(s: State, s': State, poll: string, produced: seq<Batch>, current: seq<Batch>, b: Batch)
    requires Written(s, poll, produced, current) && b.poll == poll
    requires s'.appended == s.appended + [b] && (forall x :: x in s'.afloat ==> x in s.afloat)
    requires s'.late != 0 || (s.late == s'.late && current == [b])
    requires MayFollow(OfPoll(s.appended, poll), produced + current, b)
    ensures Written(s', poll, produced, current)
  {
    hide OfPoll, Causal, MayFollow;
    var log := OfPoll(s.appended, poll);
    OfPollSnoc(s.appended, b, poll);
    CausalSnoc(log, produced + current, b);
    forall x | x in s'.afloat && x.poll == poll
      ensures MayFollow(log + [b], produced + current, x)
    {
      FollowsAfterMore(log, produced + current, b, x);
    }
    if s'.late == 0 {
      RetryWrites(log, produced, b);
    }
  }

  // The copy is acknowledged.
  lemma WrittenAfterAck(s: State, poll: string, produced: seq<Batch>, b: Batch)
    requires Written(s, poll, produced, [b]) && b in OfPoll(s.appended, poll)
    requires s.late == 0 ==> Repeats(OfPoll(s.appended, poll), produced + [b])
    ensures Written(s, poll, produced + [b], [])
  {
    hide OfPoll, Causal, MayFollow, Repeats;
    assert produced + [b] + [] == produced + [b];
  }

  // The write times out.
  lemma WrittenAfterTimeout(s: State, s': State, poll: string, produced: seq<Batch>, b: Batch)
    requires Written(s, poll, produced, [b])
    requires s'.appended == s.appended && s'.late == s.late && s'.afloat == s.afloat + [b]
    ensures Written(s', poll, produced, [b])
  {
    hide OfPoll, Causal, Delivered;
    RetriedMayFollow(OfPoll(s.appended, poll), produced, b);
  }

  // Other polls' writes do not matter.
  lemma WrittenElsewhere(s: State, s': State, poll: string, produced: seq<Batch>, current: seq<Batch>)
    requires Written(s, poll, produced, current) && OfPoll(s'.appended, poll) == OfPoll(s.appended, poll)
    requires (forall x :: x in s'.afloat && x.poll == poll ==> x in s.afloat) && (s'.late == 0 ==> s.late == 0)
    ensures Written(s', poll, produced, current)
  {
    hide OfPoll, Causal, Delivered, MayFollow;
  }

  lemma Retrying(s: State, i: nat)
    requires Inv(s) && i < |s.shards| && s.shards[i].current != []
    ensures var b := s.shards[i].current[0];
            && s.shards[i].current == [b] && Home(s, b.poll) == i
            && Written(s, b.poll, OfPoll(s.produced, b.poll), [b])
  {
    hide Fnv1a, OfPoll, Written;
    var b := s.shards[i].current[0];
    assert b in s.shards[i].queue + s.shards[i].current;
    assert InOrder(s, b.poll);
    SinglesOfPoll(b, b.poll);
  }

  lemma AckWrites(s: State, s': State, b: Batch)
    requires Written(s, b.poll, OfPoll(s.produced, b.poll), [b])
    requires s'.appended == s.appended + [b] && s'.afloat == s.afloat && s'.late == s.late
    requires s'.produced == s.produced + [b]
    ensures Written(s', b.poll, OfPoll(s'.produced, b.poll), [])
  {
    hide OfPoll, Causal, MayFollow, Repeats;
    var produced, log := OfPoll(s.produced, b.poll), OfPoll(s.appended, b.poll);
    OfPollSnoc(s.produced, b, b.poll);
    OfPollSnoc(s.appended, b, b.poll);
    RetriedMayFollow(log, produced, b);
    WrittenAfterCopy(s, s', b.poll, produced, [b], b);
    if s.late == 0 {
      RetryWrites(log, produced, b);
    }
    WrittenAfterAck(s', b.poll, produced, b);
  }

  lemma AttemptWrites(s: State, i: nat, outcome: Outcome)
    requires Inv(s) && i < |s.shards| && s.shards[i].current != []
    ensures var s' := Apply(s, Attempt(i, outcome)); var poll := s.shards[i].current[0].poll;
            && s.shards[i].current == [s.shards[i].current[0]] && Home(s, poll) == i
            && Written(s', poll, OfPoll(s'.produced, poll), OfPoll(s'.shards[i].current, poll))
  {
    hide Inv, OfPoll, Written;
    Retrying(s, i);
    var s' := Apply(s, Attempt(i, outcome));
    var b := s.shards[i].current[0];
    var produced := OfPoll(s.produced, b.poll);
    SinglesOfPoll(b, b.poll);
    match outcome
    case Acked => AckWrites(s, s', b);
    case Refused => WrittenElsewhere(s, s', b.poll, produced, [b]);
    case Unknown =>
      assert MayFollow(OfPoll(s.appended, b.poll), produced + [b], b) by { WrittenMayRetry(s, produced, b); }
      WrittenAfterCopy(s, s', b.poll, produced, [b], b);
    case TimedOut => WrittenAfterTimeout(s, s', b.poll, produced, b);
  }

  lemma WrittenMayRetry(s: State, produced: seq<Batch>, b: Batch)
    requires Written(s, b.poll, produced, [b])
    ensures MayFollow(OfPoll(s.appended, b.poll), produced + [b], b)
  {
    hide OfPoll, Causal, Delivered;
    RetriedMayFollow(OfPoll(s.appended, b.poll), produced, b);
  }

  lemma AttemptKeepsOrder(s: State, i: nat, outcome: Outcome, poll: string)
    requires Inv(s) && i < |s.shards| && s.shards[i].current != []
    ensures InOrder(Apply(s, Attempt(i, outcome)), poll)
  {
    hide Fnv1a, OfPoll, Written;
    var s' := Apply(s, Attempt(i, outcome));
    var b := s.shards[i].current[0];
    AttemptWrites(s, i, outcome);
    assert InOrder(s, poll);
    OfPollSnoc(s.produced, b, poll);
    OfPollSnoc(s.appended, b, poll);
    SinglesOfPoll(b, poll);
    if b.poll == poll {
      var produced, queue := OfPoll(s.produced, poll), OfPoll(s.shards[i].queue, poll);
      assert produced + [b] + [] + queue == produced + [b] + queue;
    } else {
      if Home(s, poll) == i {
        assert OfPoll(s'.shards[i].current, poll) == OfPoll(s.shards[i].current, poll) == [];
      }
      WrittenElsewhere(s, s', poll, OfPoll(s.produced, poll), OfPoll(s.shards[Home(s, poll)].current, poll));
    }
  }

  lemma LandKeepsOrder(s: State, k: nat, poll: string)
    requires Inv(s) && k < |s.afloat|
    ensures InOrder(Apply(s, Land(k)), poll)
  {
    hide Fnv1a, OfPoll, Causal, MayFollow, Delivered;
    var s' := Apply(s, Land(k));
    var b := s.afloat[k];
    assert InOrder(s, poll);
    OfPollSnoc(s.appended, b, poll);
    var produced, current := OfPoll(s.produced, poll), OfPoll(s.shards[Home(s, poll)].current, poll);
    if b.poll == poll {
      WrittenAfterCopy(s, s', poll, produced, current, b);
    } else {
      WrittenElsewhere(s, s', poll, produced, current);
    }
  }

  lemma AttemptKeepsInv(s: State, i: nat, outcome: Outcome)
    requires Inv(s)
    ensures Inv(Apply(s, Attempt(i, outcome)))
  {
    hide Fnv1a;
    if i < |s.shards| && s.shards[i].current != [] {
      var s' := Apply(s, Attempt(i, outcome));
      assert forall b :: b in s'.shards[i].queue + s'.shards[i].current ==>
                  b in s.shards[i].queue + s.shards[i].current;
      forall poll
        ensures InOrder(s', poll)
      {
        AttemptKeepsOrder(s, i, outcome, poll);
      }
    }
  }

  lemma ApplyKeepsInv(s: State, e: Event)
    requires Inv(s)
    ensures Inv(Apply(s, e))
  {
    match e
    case Enqueue(b) => EnqueueKeepsInv(s, b);
    case Receive(i) => ReceiveKeepsInv(s, i);
    case Attempt(i, outcome) => AttemptKeepsInv(s, i, outcome);
    case Land(k) =>
      if k < |s.afloat| {
        forall poll ensures InOrder(Apply(s, e), poll) { LandKeepsOrder(s, k, poll); }
      }
  }

  lemma {:induction false} RunKeepsInv(s: State, es: seq<Event>)
    requires Inv(s)
    ensures Inv(Run(s, es))
  {
    if es == [] {
    } else {
      RunKeepsInv(s, es[..|es| - 1]);
      ApplyKeepsInv(Run(s, es[..|es| - 1]), es[|es| - 1]);
    }
  }

  /** Per poll, what was enqueued is what was produced, then what is being retried, then what
      is queued, in that order, for any interleaving of the shards and any failures. The log has
      all that was acknowledged, and every copy of a batch, also of a write that timed out and
      landed late, stands there after copies of all earlier batches. If no write landed late,
      the log has the produced batches in their order, each several times in a row at most. */
  lemma OrderIsKept(workers: nat, capacity: nat, es: seq<Event>, poll: string)
    requires workers > 0
    ensures InOrder(Run(Initial(workers, capacity), es), poll)
  {
    InitialInv(workers, capacity);
    RunKeepsInv(Initial(workers, capacity), es);
  }

  // The attempts that found a batch and were reported as failed.
  function Failures(s: State, es: seq<Event>): nat
    requires |s.shards| > 0
  {
    if es == [] then 0
    else
      var at, e := Run(s, es[..|es| - 1]), es[|es| - 1];
      Failures(s, es[..|es| - 1])
      + if e.Attempt? && e.shard < |at.shards| && at.shards[e.shard].current != [] && e.outcome != Acked then 1 else 0
  }

  /** The failure counter counts exactly those. */
  lemma {:induction false} FailuresAreCounted(s: State, es: seq<Event>)
    requires |s.shards| > 0
    ensures Run(s, es).failed == s.failed + Failures(s, es)
  {
    if es == [] {
    } else {
      FailuresAreCounted(s, es[..|es| - 1]);
    }
  }

  // ---- What a log with repetitions still tells ----

  lemma {:induction false} RepeatsMembers(log: seq<Batch>, items: seq<Batch>)
    requires Repeats(log, items)
    ensures forall b :: b in log <==> b in items
  {
    if items == [] {
    } else {
      var l, i := log[..|log| - 1], items[..|items| - 1];
      assert log == l + [log[|log| - 1]] && items == i + [items[|items| - 1]];
      if Repeats(l, i) {
        RepeatsMembers(l, i);
      } else {
        RepeatsMembers(l, items);
      }
    }
  }

  // Cutting the log anywhere leaves a prefix of the items that ends with the same batch.
  lemma {:induction false} RepeatsPrefix(log: seq<Batch>, items: seq<Batch>, n: nat) returns (k: nat)
    requires Repeats(log, items) && n <= |log|
    ensures k <= |items| && Repeats(log[..n], items[..k])
  {
    if n == |log| {
      k := |items|;
      assert log[..n] == log && items[..k] == items;
    } else {
      var l, i := log[..|log| - 1], items[..|items| - 1];
      assert log[..n] == l[..n];
      if Repeats(l, i) {
        k := RepeatsPrefix(l, i, n);
        assert items[..k] == i[..k];
      } else {
        k := RepeatsPrefix(l, items, n);
      }
    }
  }

  lemma DeliveredPrefix(log: seq<Batch>, produced: seq<Batch>, current: seq<Batch>, n: nat) returns (k: nat)
    requires Delivered(log, produced, current) && n <= |log|
    ensures k <= |produced + current| && Repeats(log[..n], (produced + current)[..k])
  {
    if Repeats(log, produced) {
      k := RepeatsPrefix(log, produced, n);
      assert (produced + current)[..k] == produced[..k];
    } else {
      k := RepeatsPrefix(log, produced + current, n);
    }
  }

  /** Late writes and all, whatever beginning of the log is read, the batches in it are those of a
      beginning of the items. */
  lemma {:induction false} CausalIsABeginning(log: seq<Batch>, items: seq<Batch>) returns (k: nat)
    requires Causal(log, items)
    ensures k <= |items| && forall b :: b in log <==> b in items[..k]
  {
    hide MayFollow;
    if log == [] {
      k := 0;
    } else {
      var init, last := log[..|log| - 1], log[|log| - 1];
      CausalPrefix(log, items, |init|);
      k := CausalIsABeginning(init, items);
      var m := WhereItFollows(init, items, last);
      assert log == init + [last];
      if m < k {
        assert items[..k][m] == last;
      } else {
        SameMembersUpTo(init, items, k, m);
        k := m + 1;
        assert items[..m + 1] == items[..m] + [items[m]];
      }
    }
  }

  lemma CausalPrefix(log: seq<Batch>, items: seq<Batch>, n: nat)
    requires Causal(log, items) && n <= |log|
    ensures Causal(log[..n], items)
  {
    hide MayFollow;
    forall j | 0 <= j < n
      ensures MayFollow(log[..n][..j], items, log[..n][j])
    {
      assert log[..n][..j] == log[..j];
    }
  }

  lemma WhereItFollows(log: seq<Batch>, items: seq<Batch>, b: Batch) returns (m: nat)
    requires MayFollow(log, items, b)
    ensures m < |items| && items[m] == b && forall i :: 0 <= i < m ==> items[i] in log
  {
    m :| m < |items| && items[m] == b && forall i :: 0 <= i < m ==> items[i] in log;
  }

  lemma SameMembersUpTo(log: seq<Batch>, items: seq<Batch>, k: nat, m: nat)
    requires k <= m <= |items| && (forall b :: b in log <==> b in items[..k])
    requires forall i :: 0 <= i < m ==> items[i] in log
    ensures forall b :: b in log <==> b in items[..m]
  {
    forall b | b in items[..m] ensures b in log { var i :| 0 <= i < m && items[..m][i] == b; }
    forall b | b in log
      ensures b in items[..m]
    {
      var i :| 0 <= i < k && items[..k][i] == b;
      assert items[..m][i] == b;
    }
  }

  // ---- The sender object ----

  const MAX_BACKOFF := 5000

  function Attempts(i: nat, outcomes: seq<Outcome>): seq<Event> {
    seq(|outcomes|, k requires 0 <= k < |outcomes| => Attempt(i, outcomes[k]))
  }

  // The attempts one call makes of the outcomes to come: up to the first success.
  function Tries(outcomes: seq<Outcome>): (n: nat)
    ensures n <= |outcomes|
  {
    if outcomes == [] then 0 else if outcomes[0] == Acked then 1 else 1 + Tries(outcomes[1..])
  }

  class Sender {
    const workers: nat
    const perShard: nat
    const queues: array<seq<Batch>>
    const retrying: array<seq<Batch>>
    var produced: nat
    var failed: nat
    ghost var history: State

    ghost predicate Valid()
      reads this, queues, retrying
    {
      && workers > 0 && perShard > 0
      && queues != retrying
      && queues.Length == retrying.Length == workers
      && produced == |history.produced|
      && failed == history.failed
    }

    ghost function View(): State
      requires Valid()
      reads this, queues, retrying
    {
      history.(shards := seq(workers, i requires 0 <= i < workers reads this, queues, retrying
                                      requires Valid() => Shard(queues[i], retrying[i])),
               capacity := perShard)
    }

    constructor (queueSize: int, workerCount: int)
      ensures Valid() && fresh(queues) && fresh(retrying)
      ensures workers == (if workerCount <= 0 then 4 else workerCount)
      ensures var size := if queueSize <= 0 then 4096 else queueSize;
              perShard == if size / workers < 1 then 1 else size / workers
      ensures View() == Initial(workers, perShard)
    {
      var w := if workerCount <= 0 then 4 else workerCount;
      var size := if queueSize <= 0 then 4096 else queueSize;
      workers := w;
      perShard := if size / w < 1 then 1 else size / w;
      queues := new seq<Batch>[w](_ => []);
      retrying := new seq<Batch>[w](_ => []);
      produced, failed := 0, 0;
      history := State([], 0, [], [], [], [], 0, 0);
    }

    // A send to a full channel blocks: the call does not return, and nothing changes.
    method Enqueue(b: Batch) returns (sent: bool)
      requires Valid()
      modifies this, queues
      ensures Valid()
      ensures View() == Apply(old(View()), Event.Enqueue(b))
      ensures sent <==> |old(View()).shards[ShardOf(b.poll, workers)].queue| < perShard
    {
      hide Fnv1a;
      var h := HashLoop(b.poll);
      var i := h % workers;
      assert i == ShardOf(b.poll, workers);
      if |queues[i]| >= perShard {
        assert View() == old(View());
        return false;
      }
      queues[i] := queues[i] + [b];
      history := history.(enqueued := history.enqueued + [b]);
      assert View().shards == old(View()).shards[i := old(View()).shards[i].(queue := queues[i])];
      return true;
    }

    method Receive(i: nat)
      requires Valid() && i < workers && retrying[i] == [] && queues[i] != []
      modifies queues, retrying
      ensures Valid()
      ensures View() == Apply(old(View()), Event.Receive(i))
    {
      retrying[i] := [queues[i][0]];
      queues[i] := queues[i][1..];
      assert View().shards == old(View()).shards[i := Shard(queues[i], retrying[i])];
    }

    // One Produce call and what the worker makes of its answer.
    method TryOnce(i: nat, outcome: Outcome) returns (done: bool)
      requires Valid() && i < workers && retrying[i] != []
      modifies this, retrying
      ensures Valid()
      ensures View() == Apply(old(View()), Attempt(i, outcome))
      ensures done == outcome.Acked?
      ensures !done ==> retrying[i] == old(retrying[i])
    {
      var b := retrying[i][0];
      if outcome.Acked? {
        produced := produced + 1;
        retrying[i] := [];
        history := history.(produced := history.produced + [b], appended := history.appended + [b]);
        assert View().shards == old(View()).shards[i := old(View()).shards[i].(current := [])];
        return true;
      }
      failed := failed + 1;
      history := history.(failed := failed,
                          appended := if outcome.Unknown? then history.appended + [b] else history.appended,
                          afloat := if outcome.TimedOut? then history.afloat + [b] else history.afloat);
      assert View().shards == old(View()).shards;
      return false;
    }

    /** Retries one batch until it is acknowledged; while the answers last, it never gives up
        the batch and never starts another. */
    method ProduceWithRetry(i: nat, outcomes: seq<Outcome>) returns (acked: bool)
      requires Valid() && i < workers && retrying[i] != []
      modifies this, retrying
      ensures Valid()
      ensures View() == Run(old(View()), Attempts(i, outcomes[..Tries(outcomes)]))
      ensures acked <==> Acked in outcomes
      ensures !acked ==> retrying[i] == old(retrying[i])
    {
      var backoff := 50;
      var k := 0;
      ghost var before := View();
      acked := false;
      assert Attempts(i, outcomes[..0]) == [];
      while k < |outcomes|
        invariant Valid() && k <= |outcomes|
        invariant 50 <= backoff <= MAX_BACKOFF
        invariant Acked !in outcomes[..k]
        invariant Tries(outcomes) == k + Tries(outcomes[k..])
        invariant View() == Run(before, Attempts(i, outcomes[..k]))
        invariant retrying[i] == old(retrying[i])
      {
        assert Attempts(i, outcomes[..k + 1])[..k] == Attempts(i, outcomes[..k]);
        acked := TryOnce(i, outcomes[k]);
        k := k + 1;
        if acked {
          return;
        }
        backoff := if backoff * 2 > MAX_BACKOFF then MAX_BACKOFF else backoff * 2;
      }
      assert outcomes[..k] == outcomes;
    }
  }
}
