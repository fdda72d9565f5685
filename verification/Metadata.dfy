/** The poll metadata cache with one fetch at a time per poll. Every critical section, every
    receive and every answer of the results service is one action; requests interleave freely. */
module Metadata {
  import opened Basics
  import opened Service

  datatype Reply = Reply(poll: Option<Poll>, optionSet: set<int>, error: Option<Error>)

  const NO_REPLY := Reply(None, {}, None)

  datatype Entry = Entry(reply: Reply, expiresAt: int, inflight: bool, readyClosed: bool)

  const PENDING := Entry(NO_REPLY, 0, true, false)

  // How long an answer may be served: errors are kept for a second at most.
  function Lifetime(answer: Answer, ttl: int): int {
    if answer.Found? || ttl <= SECOND then ttl else SECOND
  }

  function ReplyTo(answer: Answer): Reply {
    match answer
    case Found(poll) => Reply(Some(poll), (set o | o in poll.options), None)
    case Failed(error) => Reply(None, {}, Some(error))
  }

  function Fill(e: Entry, answer: Answer, now: int, ttl: int): Entry {
    Entry(ReplyTo(answer), now + Lifetime(answer, ttl), false, true)
  }

  datatype Verdict = Serve | Join | Miss

  // What both looks at the map, under the read lock and under the full lock, decide.
  function Look(e: Option<Entry>, now: int): Verdict {
    if e.None? then Miss
    else if e.value.inflight then Join
    else if now < e.value.expiresAt then Serve
    else Miss
  }

  // An allocated entry, with the story of the fetch that fills it.
  datatype Cell = Cell(entry: Entry, id: string, leader: nat, startedAt: int, finishedAt: int,
                       answer: Answer, closes: nat)

  // A request inside get. Returned also says which cell answered (-1: none) and when.
  datatype Pc =
    | AtRead
    | AtLock
    | WaitingFor(cell: nat)
    | Fetching(cell: nat)
    | Returned(reply: Reply, source: int, at: int)

  datatype Request = Request(id: string, pc: Pc)

  datatype State = State(heap: seq<Cell>, entries: map<string, nat>, requests: map<nat, Request>, now: int)

  datatype Event =
    | Call(t: nat, id: string)
    | Read(t: nat)
    | Lock(t: nat)
    | Arrive(t: nat, answer: Answer)
    | Wake(t: nat)
    | Cancel(t: nat)
    | Tick(d: nat)

  const EMPTY := State([], map[], map[], 0)

  const CANCELLED := Reply(None, {}, Some(Cancelled))

  predicate At(s: State, t: nat, pc: Pc) {
    t in s.requests && s.requests[t].pc == pc
  }

  function Goto(s: State, t: nat, pc: Pc): State
    requires t in s.requests
  {
    s.(requests := s.requests[t := s.requests[t].(pc := pc)])
  }

  function Current(s: State, id: string): Option<Entry> {
    if id in s.entries && s.entries[id] < |s.heap| then Some(s.heap[s.entries[id]].entry) else None
  }

  function Apply(s: State, e: Event, ttl: int): State {
    match e
    case Call(t, id) => if t in s.requests then s else s.(requests := s.requests[t := Request(id, AtRead)])
    case Read(t) =>
      if !At(s, t, AtRead) then s
      else
        var id := s.requests[t].id;
        var cur := Current(s, id);
        (match Look(cur, s.now)
         case Serve => Goto(s, t, Returned(cur.value.reply, s.entries[id], s.now))
         case Join => Goto(s, t, WaitingFor(s.entries[id]))
         case Miss => Goto(s, t, AtLock))
    case Lock(t) =>
      if !At(s, t, AtLock) then s
      else
        var id := s.requests[t].id;
        var cur := Current(s, id);
        (match Look(cur, s.now)
         case Serve => Goto(s, t, Returned(cur.value.reply, s.entries[id], s.now))
         case Join => Goto(s, t, WaitingFor(s.entries[id]))
         case Miss =>
           Goto(s, t, Fetching(|s.heap|))
           .(heap := s.heap + [Cell(PENDING, id, t, s.now, s.now, Failed(Cancelled), 0)],
             entries := s.entries[id := |s.heap|]))
    case Arrive(t, answer) =>
      if !(t in s.requests && s.requests[t].pc.Fetching? && s.requests[t].pc.cell < |s.heap|) then s
      else
        var r := s.requests[t].pc.cell;
        var cell := s.heap[r];
        var filled := Fill(cell.entry, answer, s.now, ttl);
        Goto(s, t, Returned(filled.reply, r, s.now))
        .(heap := s.heap[r := cell.(entry := filled, finishedAt := s.now, answer := answer, closes := cell.closes + 1)])
    case Wake(t) =>
      if !(t in s.requests && s.requests[t].pc.WaitingFor? && s.requests[t].pc.cell < |s.heap|) then s
      else if !s.heap[s.requests[t].pc.cell].entry.readyClosed then s
      else Goto(s, t, AtRead)
    case Cancel(t) =>
      if !(t in s.requests && s.requests[t].pc.WaitingFor?) then s
      else Goto(s, t, Returned(CANCELLED, -1, s.now))
    case Tick(d) => s.(now := s.now + d)
  }

  function Run(s: State, es: seq<Event>, ttl: int): State {
    if es == [] then s else Apply(Run(s, es[..|es| - 1], ttl), es[|es| - 1], ttl)
  }

  // ---- The invariant ----

  ghost predicate CellOk(s: State, r: nat, ttl: int)
    requires r < |s.heap|
  {
    var c := s.heap[r];
    // In flight exactly while its one leader is fetching; then it is still the map's entry.
    && (c.entry.inflight <==> At(s, c.leader, Fetching(r)))
    && (c.entry.inflight ==> c.id in s.entries && s.entries[c.id] == r && c.entry == PENDING)
    // The ready channel is closed once, when the fetch ends.
    && c.entry.readyClosed == !c.entry.inflight
    && c.closes == (if c.entry.inflight then 0 else 1)
    && c.startedAt <= s.now
    && (!c.entry.inflight ==>
          && c.startedAt <= c.finishedAt <= s.now
          && c.entry == Fill(PENDING, c.answer, c.finishedAt, ttl))
    && c.id in s.entries && r <= s.entries[c.id]
  }

  ghost predicate EntryOk(s: State, id: string) {
    id in s.entries ==> s.entries[id] < |s.heap| && s.heap[s.entries[id]].id == id
  }

  ghost predicate RequestOk(s: State, t: nat, ttl: int)
    requires t in s.requests
  {
    var q := s.requests[t];
    match q.pc
    case AtRead => true
    case AtLock => true
    case WaitingFor(r) => r < |s.heap| && s.heap[r].id == q.id
    case Fetching(r) => r < |s.heap| && s.heap[r].id == q.id && s.heap[r].leader == t
    case Returned(reply, source, at) =>
      && (reply.poll.Some? <==> reply.error.None?)
      && (source < 0 ==> reply == CANCELLED)
      && (source >= 0 ==>
            && source < |s.heap| && s.heap[source].id == q.id && !s.heap[source].entry.inflight
            && reply == ReplyTo(s.heap[source].answer)
            && s.heap[source].finishedAt <= at < s.heap[source].finishedAt + Lifetime(s.heap[source].answer, ttl))
  }

  // Fetches of one poll are spaced by the lifetime of the earlier answer.
  ghost predicate Spaced(s: State, a: nat, b: nat)
    requires a < b < |s.heap|
  {
    s.heap[a].id == s.heap[b].id ==>
      !s.heap[a].entry.inflight && s.heap[a].entry.expiresAt <= s.heap[b].startedAt
  }

  ghost predicate Inv(s: State, ttl: int) {
    && (forall r: nat :: r < |s.heap| ==> CellOk(s, r, ttl))
    && (forall id :: EntryOk(s, id))
    && (forall t :: t in s.requests ==> RequestOk(s, t, ttl))
    && (forall a: nat, b: nat :: a < b < |s.heap| ==> Spaced(s, a, b))
  }

  // Moving one request between points that do not fetch leaves every cell alone.
  lemma GotoKeepsInv(s: State, t: nat, pc: Pc, ttl: int)
    requires Inv(s, ttl) && t in s.requests && !s.requests[t].pc.Fetching? && !pc.Fetching?
    requires RequestOk(Goto(s, t, pc), t, ttl)
    ensures Inv(Goto(s, t, pc), ttl)
  {
    var s' := Goto(s, t, pc);
    forall r: nat | r < |s'.heap|
      ensures CellOk(s', r, ttl)
    {
      assert CellOk(s, r, ttl);
    }
    forall id
      ensures EntryOk(s', id)
    {
      assert EntryOk(s, id);
    }
    forall u | u in s'.requests
      ensures RequestOk(s', u, ttl)
    {
      if u != t { assert RequestOk(s, u, ttl); }
    }
    forall a: nat, b: nat | a < b < |s'.heap|
      ensures Spaced(s', a, b)
    {
      assert Spaced(s, a, b);
    }
  }

  lemma ServeOk(s: State, t: nat, ttl: int)
    requires ttl > 0 && Inv(s, ttl) && t in s.requests
    requires Look(Current(s, s.requests[t].id), s.now).Serve?
    ensures var id := s.requests[t].id;
            RequestOk(Goto(s, t, Returned(Current(s, id).value.reply, s.entries[id], s.now)), t, ttl)
  {
    var id := s.requests[t].id;
    assert EntryOk(s, id);
    assert CellOk(s, s.entries[id], ttl);
  }

  lemma LeadKeepsInv(s: State, t: nat, ttl: int)
    requires ttl > 0 && Inv(s, ttl) && At(s, t, AtLock)
    requires Look(Current(s, s.requests[t].id), s.now).Miss?
    ensures Inv(Apply(s, Lock(t), ttl), ttl)
  {
    var id := s.requests[t].id;
    var n := |s.heap|;
    var s' := Apply(s, Lock(t), ttl);
    assert EntryOk(s, id);
    forall r: nat | r < |s'.heap|
      ensures CellOk(s', r, ttl)
    {
      if r < n {
        assert CellOk(s, r, ttl);
        if id in s.entries { assert CellOk(s, s.entries[id], ttl); }
      }
    }
    forall i
      ensures EntryOk(s', i)
    {
      assert EntryOk(s, i);
    }
    forall u | u in s'.requests
      ensures RequestOk(s', u, ttl)
    {
      if u != t { assert RequestOk(s, u, ttl); }
    }
    forall a: nat, b: nat | a < b < |s'.heap|
      ensures Spaced(s', a, b)
    {
      if b < n {
        assert Spaced(s, a, b);
      } else if s.heap[a].id == id {
        assert CellOk(s, a, ttl);
        var last := s.entries[id];
        assert CellOk(s, last, ttl);
        if a < last {
          assert Spaced(s, a, last);
        }
      }
    }
  }

  lemma ArriveKeepsInv(s: State, t: nat, answer: Answer, ttl: int)
    requires ttl > 0 && Inv(s, ttl)
    ensures Inv(Apply(s, Arrive(t, answer), ttl), ttl)
  {
    if t in s.requests && s.requests[t].pc.Fetching? {
      assert RequestOk(s, t, ttl);
      var r := s.requests[t].pc.cell;
      var s' := Apply(s, Arrive(t, answer), ttl);
      assert CellOk(s, r, ttl);
      forall q: nat | q < |s'.heap|
        ensures CellOk(s', q, ttl)
      {
        assert CellOk(s, q, ttl);
      }
      forall i
        ensures EntryOk(s', i)
      {
        assert EntryOk(s, i);
      }
      forall u | u in s'.requests
        ensures RequestOk(s', u, ttl)
      {
        assert RequestOk(s, u, ttl);
      }
      forall a: nat, b: nat | a < b < |s'.heap|
        ensures Spaced(s', a, b)
      {
        assert Spaced(s, a, b);
      }
    }
  }

  lemma TickKeepsInv(s: State, d: nat, ttl: int)
    requires Inv(s, ttl)
    ensures Inv(s.(now := s.now + d), ttl)
  {
    var s' := s.(now := s.now + d);
    assert forall r: nat :: r < |s.heap| && CellOk(s, r, ttl) ==> CellOk(s', r, ttl);
    assert forall id :: EntryOk(s, id) ==> EntryOk(s', id);
    assert forall t :: t in s.requests && RequestOk(s, t, ttl) ==> RequestOk(s', t, ttl);
    assert forall a: nat, b: nat :: a < b < |s.heap| && Spaced(s, a, b) ==> Spaced(s', a, b);
  }

  lemma CallKeepsInv(s: State, t: nat, id: string, ttl: int)
    requires Inv(s, ttl) && t !in s.requests
    ensures Inv(s.(requests := s.requests[t := Request(id, AtRead)]), ttl)
  {
    var s' := s.(requests := s.requests[t := Request(id, AtRead)]);
    assert forall r: nat :: r < |s.heap| && CellOk(s, r, ttl) ==> CellOk(s', r, ttl);
    assert forall i :: EntryOk(s, i) ==> EntryOk(s', i);
    assert forall u :: u in s.requests && RequestOk(s, u, ttl) ==> RequestOk(s', u, ttl);
    assert forall a: nat, b: nat :: a < b < |s.heap| && Spaced(s, a, b) ==> Spaced(s', a, b);
  }

  lemma ApplyKeepsInv(s: State, e: Event, ttl: int)
    requires ttl > 0 && Inv(s, ttl)
    ensures Inv(Apply(s, e, ttl), ttl)
  {
    match e
    case Call(t, id) => if t !in s.requests { CallKeepsInv(s, t, id, ttl); }
    case Read(t) =>
      if At(s, t, AtRead) {
        var id := s.requests[t].id;
        assert EntryOk(s, id);
        match Look(Current(s, id), s.now) {
          case Serve =>
            ServeOk(s, t, ttl);
            GotoKeepsInv(s, t, Returned(Current(s, id).value.reply, s.entries[id], s.now), ttl);
          case Join => GotoKeepsInv(s, t, WaitingFor(s.entries[id]), ttl);
          case Miss => GotoKeepsInv(s, t, AtLock, ttl);
        }
      }
    case Lock(t) =>
      if At(s, t, AtLock) {
        var id := s.requests[t].id;
        assert EntryOk(s, id);
        match Look(Current(s, id), s.now) {
          case Serve =>
            ServeOk(s, t, ttl);
            GotoKeepsInv(s, t, Returned(Current(s, id).value.reply, s.entries[id], s.now), ttl);
          case Join => GotoKeepsInv(s, t, WaitingFor(s.entries[id]), ttl);
          case Miss => LeadKeepsInv(s, t, ttl);
        }
      }
    case Arrive(t, answer) => ArriveKeepsInv(s, t, answer, ttl);
    case Wake(t) =>
      if t in s.requests && s.requests[t].pc.WaitingFor? { GotoKeepsInv(s, t, AtRead, ttl); }
    case Cancel(t) =>
      if t in s.requests && s.requests[t].pc.WaitingFor? {
        GotoKeepsInv(s, t, Returned(CANCELLED, -1, s.now), ttl);
      }
    case Tick(d) => TickKeepsInv(s, d, ttl);
  }

  /** Every interleaving of any number of requests keeps the invariant. */
  lemma {:induction false} RunKeepsInv(es: seq<Event>, ttl: int)
    requires ttl > 0
    ensures Inv(Run(EMPTY, es, ttl), ttl)
  {
    if es == [] {
    } else {
      RunKeepsInv(es[..|es| - 1], ttl);
      ApplyKeepsInv(Run(EMPTY, es[..|es| - 1], ttl), es[|es| - 1], ttl);
    }
  }

  // ---- What callers get ----

  /** Single flight: two requests are never fetching the same poll at once. */
  lemma OneFetchPerPoll(es: seq<Event>, ttl: int, t: nat, u: nat)
    requires ttl > 0
    requires var s := Run(EMPTY, es, ttl);
             && t in s.requests && s.requests[t].pc.Fetching?
             && u in s.requests && s.requests[u].pc.Fetching?
             && s.requests[t].id == s.requests[u].id
    ensures t == u
  {
    RunKeepsInv(es, ttl);
    var s := Run(EMPTY, es, ttl);
    assert RequestOk(s, t, ttl) && RequestOk(s, u, ttl);
    assert CellOk(s, s.requests[t].pc.cell, ttl) && CellOk(s, s.requests[u].pc.cell, ttl);
  }

  /** No waiter is forgotten: its channel is closed, or a live leader will close it; and a
      leader that finishes finds the channel still open. */
  lemma WaitersHaveALeader(es: seq<Event>, ttl: int, t: nat)
    requires ttl > 0 && t in Run(EMPTY, es, ttl).requests
    ensures var s := Run(EMPTY, es, ttl);
            && (s.requests[t].pc.WaitingFor? ==>
                  var r := s.requests[t].pc.cell;
                  r < |s.heap| && (s.heap[r].entry.readyClosed || At(s, s.heap[r].leader, Fetching(r))))
            && (s.requests[t].pc.Fetching? ==>
                  var r := s.requests[t].pc.cell;
                  r < |s.heap| && s.heap[r].closes == 0
                  && s.requests[t].id in s.entries && s.entries[s.requests[t].id] == r)
  {
    RunKeepsInv(es, ttl);
    var s := Run(EMPTY, es, ttl);
    assert RequestOk(s, t, ttl);
    if s.requests[t].pc.WaitingFor? {
      assert CellOk(s, s.requests[t].pc.cell, ttl);
    } else if s.requests[t].pc.Fetching? {
      assert CellOk(s, s.requests[t].pc.cell, ttl);
    }
  }

  // The lesser of ttl and a second, for which an error is kept.
  function ErrorLifetime(ttl: int): int {
    if ttl <= 1_000_000_000 then ttl else 1_000_000_000
  }

  /** A finished request has a poll or an error, never neither. If it was cancelled while it
      waited it got the cancellation (source < 0); otherwise its answer comes from a fetch of its
      own poll: a poll less than ttl after that fetch ended, an error, a cancelled leader's
      too, less than min(ttl, 1s) after. */
  lemma RepliesAreFresh(es: seq<Event>, ttl: int, t: nat)
    requires ttl > 0
    requires var s := Run(EMPTY, es, ttl); t in s.requests && s.requests[t].pc.Returned?
    ensures var s := Run(EMPTY, es, ttl);
            var (id, pc) := (s.requests[t].id, s.requests[t].pc);
            && (pc.reply.poll.Some? <==> pc.reply.error.None?)
            && (if pc.source < 0 then pc.reply.poll == None && pc.reply.error == Some(Cancelled)
                else
                  && pc.source < |s.heap| && s.heap[pc.source].id == id
                  && (match s.heap[pc.source].answer
                      case Found(poll) =>
                        && pc.reply.poll == Some(poll) && pc.reply.error == None
                        && forall o :: o in pc.reply.optionSet <==> o in poll.options
                      case Failed(error) =>
                        pc.reply.poll == None && pc.reply.error == Some(error) && pc.reply.optionSet == {})
                  && 0 <= pc.at - s.heap[pc.source].finishedAt
                       < if pc.reply.poll.Some? then ttl else ErrorLifetime(ttl))
  {
    RunKeepsInv(es, ttl);
    var s := Run(EMPTY, es, ttl);
    assert RequestOk(s, t, ttl);
  }

  /** Spacing: of two fetches of one poll the later starts only after the earlier has ended, and
      then not before ttl has passed after a success, or min(ttl, 1s) after an error. */
  lemma NextFetchWaits(es: seq<Event>, ttl: int, a: nat, b: nat)
    requires ttl > 0
    requires var s := Run(EMPTY, es, ttl); a < b < |s.heap| && s.heap[a].id == s.heap[b].id
    ensures var s := Run(EMPTY, es, ttl); var (x, y) := (s.heap[a], s.heap[b]);
            && !x.entry.inflight && x.startedAt <= x.finishedAt
            && y.startedAt >= x.finishedAt + if x.answer.Found? then ttl else ErrorLifetime(ttl)
  {
    RunKeepsInv(es, ttl);
    var s := Run(EMPTY, es, ttl);
    assert Spaced(s, a, b) && CellOk(s, a, ttl);
  }

  // What the fetches but the last, one after the other, keep the next one waiting.
  ghost function Waits(s: State, fetches: seq<nat>, ttl: int): int
    requires forall i :: 0 <= i < |fetches| ==> fetches[i] < |s.heap|
  {
    if |fetches| <= 1 then 0
    else
      var x := s.heap[fetches[|fetches| - 2]];
      Waits(s, fetches[..|fetches| - 1], ttl)
      + (x.finishedAt - x.startedAt) + if x.answer.Found? then ttl else ErrorLifetime(ttl)
  }

  lemma {:induction false} FetchesAreSpaced(es: seq<Event>, ttl: int, id: string, fetches: seq<nat>)
    requires ttl > 0 && fetches != []
    requires var s := Run(EMPTY, es, ttl);
             && (forall i :: 0 <= i < |fetches| ==> fetches[i] < |s.heap| && s.heap[fetches[i]].id == id)
             && (forall i, j :: 0 <= i < j < |fetches| ==> fetches[i] < fetches[j])
    ensures var s := Run(EMPTY, es, ttl);
            var (first, last) := (s.heap[fetches[0]], s.heap[fetches[|fetches| - 1]]);
            && last.startedAt >= first.startedAt + Waits(s, fetches, ttl)
            && Waits(s, fetches, ttl) >= (|fetches| - 1) * ErrorLifetime(ttl)
  {
    hide Run;
    var n := |fetches| - 1;
    if n == 0 {
    } else {
      FetchesAreSpaced(es, ttl, id, fetches[..n]);
      NextFetchWaits(es, ttl, fetches[n - 1], fetches[n]);
      assert n * ErrorLifetime(ttl) == (n - 1) * ErrorLifetime(ttl) + ErrorLifetime(ttl);
    }
  }

  /** Rate: the last of several fetches of a poll starts after all the time the earlier ones ran
      and their answers were kept, so at most 1 + W / min(ttl, 1s) start within any time W, and
      at most 1 + W / ttl while they succeed. */
  lemma FetchRateIsBounded(es: seq<Event>, ttl: int, id: string, fetches: seq<nat>)
    requires ttl > 0 && fetches != []
    requires var s := Run(EMPTY, es, ttl);
             && (forall i :: 0 <= i < |fetches| ==> fetches[i] < |s.heap| && s.heap[fetches[i]].id == id)
             && (forall i, j :: 0 <= i < j < |fetches| ==> fetches[i] < fetches[j])
    ensures var s := Run(EMPTY, es, ttl);
            var k := |fetches| - 1;
            var elapsed := s.heap[fetches[k]].startedAt - s.heap[fetches[0]].startedAt;
            && elapsed >= k * ErrorLifetime(ttl)
            && ((forall i :: 0 <= i < k ==> s.heap[fetches[i]].answer.Found?) ==> elapsed >= k * ttl)
  {
    hide Run;
    FetchesAreSpaced(es, ttl, id, fetches);
    if forall i :: 0 <= i < |fetches| - 1 ==> Run(EMPTY, es, ttl).heap[fetches[i]].answer.Found? {
      SuccessesWait(es, ttl, fetches);
    }
  }

  lemma {:induction false} SuccessesWait(es: seq<Event>, ttl: int, fetches: seq<nat>)
    requires ttl > 0 && fetches != []
    requires var s := Run(EMPTY, es, ttl);
             && (forall i :: 0 <= i < |fetches| ==> fetches[i] < |s.heap|)
             && (forall i, j :: 0 <= i < j < |fetches| ==>
                   fetches[i] < fetches[j] && s.heap[fetches[i]].id == s.heap[fetches[j]].id)
             && (forall i :: 0 <= i < |fetches| - 1 ==> s.heap[fetches[i]].answer.Found?)
    ensures Waits(Run(EMPTY, es, ttl), fetches, ttl) >= (|fetches| - 1) * ttl
  {
    hide Run;
    var n := |fetches| - 1;
    if n == 0 {
    } else {
      SuccessesWait(es, ttl, fetches[..n]);
      NextFetchWaits(es, ttl, fetches[n - 1], fetches[n]);
      assert n * ttl == (n - 1) * ttl + ttl;
    }
  }

  // ---- The cache object ----

  class CacheEntry {
    var reply: Reply
    var expiresAt: int
    var inflight: bool
    var readyClosed: bool

    ghost function View(): Entry
      reads this
    {
      Entry(reply, expiresAt, inflight, readyClosed)
    }

    constructor ()
      ensures View() == PENDING
    {
      reply, expiresAt, inflight, readyClosed := NO_REPLY, 0, true, false;
    }
  }

  datatype Outcome = Hit(reply: Reply) | Wait(on: CacheEntry) | Lead(entry: CacheEntry) | Absent

  class PollCache {
    const ttl: int
    var entries: map<string, CacheEntry>

    constructor (ttl: int)
      ensures this.ttl == (if ttl <= 0 then 60 * SECOND else ttl) && entries == map[]
    {
      this.ttl := if ttl <= 0 then 60 * SECOND else ttl;
      entries := map[];
    }

    ghost function Find(id: string): Option<Entry>
      reads this, if id in entries then {entries[id]} else {}
    {
      if id in entries then Some(entries[id].View()) else None
    }

    // The section under the read lock.
    method FastPath(id: string, now: int) returns (o: Outcome)
      ensures match Look(Find(id), now)
              case Serve => o == Hit(Find(id).value.reply)
              case Join => o == Wait(entries[id])
              case Miss => o == Absent
    {
      if id in entries {
        var e := entries[id];
        if !e.inflight && now < e.expiresAt {
          return Hit(e.reply);
        }
        if e.inflight {
          return Wait(e);
        }
      }
      return Absent;
    }

    // The section under the full lock: looks again, and leads if it is still a miss.
    method LookAgain(id: string, now: int) returns (o: Outcome)
      modifies this
      ensures match Look(old(Find(id)), now)
              case Serve => o == Hit(old(Find(id)).value.reply) && entries == old(entries)
              case Join => o == Wait(old(entries)[id]) && entries == old(entries)
              case Miss => o.Lead? && fresh(o.entry) && o.entry.View() == PENDING
                           && entries == old(entries)[id := o.entry]
    {
      if id in entries {
        var e := entries[id];
        if !e.inflight && now < e.expiresAt {
          return Hit(e.reply);
        }
        if e.inflight {
          return Wait(e);
        }
      }
      var e := new CacheEntry();
      entries := entries[id := e];
      return Lead(e);
    }

    // The leader's section after the fetch; closing a closed channel would panic.
    method Finish(e: CacheEntry, answer: Answer, now: int) returns (out: Reply)
      requires e.View() == PENDING
      modifies e
      ensures e.View() == Fill(PENDING, answer, now, ttl)
      ensures out == ReplyTo(answer)
    {
      match answer {
        case Found(poll) =>
          var optionSet: set<int> := {};
          for i := 0 to |poll.options|
            invariant optionSet == (set o | o in poll.options[..i])
          {
            assert poll.options[..i + 1] == poll.options[..i] + [poll.options[i]];
            optionSet := optionSet + {poll.options[i]};
          }
          assert poll.options[..|poll.options|] == poll.options;
          e.reply := Reply(Some(poll), optionSet, None);
          e.expiresAt := now + ttl;
        case Failed(error) =>
          e.reply := Reply(None, {}, Some(error));
          var negative := ttl;
          if negative > SECOND {
            negative := SECOND;
          }
          e.expiresAt := now + negative;
      }
      e.inflight := false;
      e.readyClosed := true;
      out := e.reply;
    }
  }
}
