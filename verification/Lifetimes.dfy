/** The buffers one poll has over the life of a worker. Cleanup drops an expired buffer from
    its shard, and the next call for the poll starts a new one; the drainer of a dropped
    buffer runs on beside it. */
module Lifetimes {
  import opened Basics
  import opened Votes
  import B = Buffer

  // What Cleanup tests before it drops a buffer.
  predicate Expired(b: B.PollBuf, ttl: int, now: int) {
    b.closed && b.out == [] && now - b.closedAt > ttl
  }

  predicate Goes(live: Option<B.PollBuf>, ttl: int, now: int) {
    live.Some? && Expired(live.value, ttl, now)
  }

  // The buffer the next caller finds.
  function OrFresh(live: Option<B.PollBuf>): B.PollBuf {
    if live.Some? then live.value else B.FRESH
  }

  // An element handed to send, by the drainer of the life-th buffer of the poll.
  datatype Sent = Sent(life: nat, msg: B.OutMsg)

  // live is what the shard holds for the poll, dropped what Cleanup took out of it; stream is
  // all that the poll's drainers have sent, in the order of their sends.
  datatype Slot = Slot(live: Option<B.PollBuf>, dropped: seq<B.PollBuf>, stream: seq<Sent>)

  const UNUSED := Slot(None, [], [])

  // The poll's buffers, oldest first.
  function Lives(s: Slot): seq<B.PollBuf> {
    s.dropped + if s.live.Some? then [s.live.value] else []
  }

  datatype Event =
    | Add(vote: Vote)
    | Close(now: int)
    | Turn
    | TurnDropped(i: nat)
    | Cleanup(ttl: int, now: int)

  function HandOf(b: B.PollBuf, life: nat): seq<Sent> {
    if b.drainer.Sending? then [Sent(life, b.drainer.msg)] else []
  }

  // What an event sends.
  function Hands(s: Slot, e: Event): seq<Sent> {
    match e
    case Turn => if s.live.Some? then HandOf(s.live.value, |s.dropped|) else []
    case TurnDropped(i) => if i < |s.dropped| then HandOf(s.dropped[i], i) else []
    case _ => []
  }

  // What it makes of the buffers.
  function Moved(s: Slot, e: Event, n: nat): Slot {
    match e
    case Add(v) => s.(live := Some(B.AddVote(OrFresh(s.live), v, n)))
    case Close(now) => s.(live := Some(B.CloseBuf(OrFresh(s.live), now)))
    case Turn => if s.live.Some? then s.(live := Some(B.DrainerTurn(s.live.value))) else s
    case TurnDropped(i) =>
      if i < |s.dropped| then s.(dropped := s.dropped[i := B.DrainerTurn(s.dropped[i])]) else s
    case Cleanup(ttl, now) =>
      if Goes(s.live, ttl, now) then s.(live := None, dropped := s.dropped + [s.live.value]) else s
  }

  function Apply(s: Slot, e: Event, n: nat): Slot {
    Moved(s, e, n).(stream := s.stream + Hands(s, e))
  }

  function Run(es: seq<Event>, n: nat): Slot {
    if es == [] then UNUSED else Apply(Run(es[..|es| - 1], n), es[|es| - 1], n)
  }

  lemma RunMore(es: seq<Event>, e: Event, n: nat)
    ensures Run(es + [e], n) == Apply(Run(es, n), e, n)
  {
    assert (es + [e])[..|es|] == es;
  }

  // The i-th event closes the poll, which was open or unknown before.
  predicate Closes(es: seq<Event>, i: nat, n: nat)
    requires i < |es|
  {
    es[i].Close? && !OrFresh(Run(es[..i], n).live).closed
  }

  // The i-th event drops the poll's buffer.
  predicate Drops(es: seq<Event>, i: nat, n: nat)
    requires i < |es|
  {
    es[i].Cleanup? && Goes(Run(es[..i], n).live, es[i].ttl, es[i].now)
  }

  function ClosesIn(es: seq<Event>, n: nat): nat {
    if es == [] then 0 else ClosesIn(es[..|es| - 1], n) + if Closes(es, |es| - 1, n) then 1 else 0
  }

  // ---- Done markers ----

  function Dones(ms: seq<B.OutMsg>): nat {
    if ms == [] then 0 else Dones(ms[..|ms| - 1]) + if ms[|ms| - 1].done then 1 else 0
  }

  // All markers of a buffer: sent, in the drainer's hands or queued.
  function Markers(b: B.PollBuf): nat {
    Dones(b.sent + B.InFlight(b) + b.out)
  }

  function MarkersOfAll(bs: seq<B.PollBuf>): nat {
    if bs == [] then 0 else MarkersOfAll(bs[..|bs| - 1]) + Markers(bs[|bs| - 1])
  }

  function MarkersIn(s: Slot): nat {
    MarkersOfAll(s.dropped) + if s.live.Some? then Markers(s.live.value) else 0
  }

  lemma {:induction false} NoDones(ms: seq<B.OutMsg>)
    requires forall m :: m in ms ==> !m.done
    ensures Dones(ms) == 0
  {
    if ms == [] {
    } else {
      NoDones(ms[..|ms| - 1]);
    }
  }

  lemma MarkerPerClosed(b: B.PollBuf, n: nat)
    requires n > 0 && B.Inv(b, n)
    ensures Markers(b) == if b.closed then 1 else 0
  {
    var stream := B.Stream(b.accepted, b.closed, n);
    forall i | 0 <= i < |stream| ensures stream[i].done <==> b.closed && i == |stream| - 1 {
      B.StreamShape(b.accepted, b.closed, n, i);
    }
    if b.closed {
      NoDones(stream[..|stream| - 1]);
    } else {
      NoDones(stream);
    }
  }

  // ---- The invariant over all lifetimes ----

  // What one lifetime's drainer has sent.
  function OfLife(stream: seq<Sent>, life: nat): seq<B.OutMsg> {
    if stream == [] then []
    else
      var init, last := OfLife(stream[..|stream| - 1], life), stream[|stream| - 1];
      if last.life == life then init + [last.msg] else init
  }

  ghost predicate Sound(s: Slot, n: nat)
    requires n > 0
  {
    && (s.live.Some? ==> B.Inv(s.live.value, n))
    && forall i :: 0 <= i < |s.dropped| ==> B.Inv(s.dropped[i], n) && s.dropped[i].closed && s.dropped[i].out == []
  }

  // The sends of all lifetimes: nothing but a done marker comes after a later lifetime's element.
  ghost predicate Streamed(s: Slot) {
    && (forall i :: 0 <= i < |Lives(s)| ==> OfLife(s.stream, i) == Lives(s)[i].sent)
    && (forall j :: 0 <= j < |s.stream| ==> s.stream[j].life < |Lives(s)|)
    && (forall j, k :: 0 <= j < k < |s.stream| && s.stream[k].life < s.stream[j].life ==>
          s.stream[k].msg == B.DONE_MARKER)
  }

  ghost predicate Inv(s: Slot, n: nat)
    requires n > 0
  {
    Sound(s, n) && Streamed(s)
  }

  lemma ApplyKeepsSound(s: Slot, e: Event, n: nat)
    requires n > 0 && Sound(s, n)
    ensures Sound(Apply(s, e, n), n)
  {
    hide B.Inv, B.AddVote, B.CloseBuf;
    B.FreshInv(n);
    match e
    case Add(v) => B.AddKeepsInv(OrFresh(s.live), v, n);
    case Close(now) => B.CloseKeepsInv(OrFresh(s.live), now, n);
    case Turn => if s.live.Some? { B.TurnKeepsInv(s.live.value, n); }
    case TurnDropped(i) => if i < |s.dropped| { B.TurnKeepsInv(s.dropped[i], n); }
    case Cleanup(ttl, now) =>
  }

  lemma OfLifeSnoc(stream: seq<Sent>, x: Sent, life: nat)
    ensures OfLife(stream + [x], life) == OfLife(stream, life) + if x.life == life then [x.msg] else []
  {
    assert (stream + [x])[..|stream|] == stream;
  }

  lemma {:induction false} OfNoLife(stream: seq<Sent>, life: nat)
    requires forall j :: 0 <= j < |stream| ==> stream[j].life != life
    ensures OfLife(stream, life) == []
  {
    if stream == [] {
    } else {
      OfNoLife(stream[..|stream| - 1], life);
    }
  }

  // A buffer that is closed with an empty queue has at most its marker to send.
  lemma OnlyMarkerLeft(b: B.PollBuf, n: nat)
    requires n > 0 && B.Inv(b, n) && b.closed && b.out == []
    ensures b.drainer.Sending? ==> b.drainer.msg == B.DONE_MARKER
    ensures B.Flatten(b.sent) == b.accepted
  {
    B.Conserved(b, n);
    var stream := B.Stream(b.accepted, true, n);
    assert b.sent + B.InFlight(b) == b.sent + B.InFlight(b) + b.out == stream;
    if b.drainer.Sending? {
      B.StreamShape(b.accepted, true, n, |stream| - 1);
      assert stream[|stream| - 1] == b.drainer.msg;
      assert B.InFlight(b)[..0] == [];
    }
  }

  // A send by the life-th buffer.
  lemma SendKeepsStreamed(s: Slot, s': Slot, life: nat, msg: B.OutMsg)
    requires Streamed(s) && life < |Lives(s)| && s'.stream == s.stream + [Sent(life, msg)]
    requires |Lives(s')| == |Lives(s)| && Lives(s')[life].sent == Lives(s)[life].sent + [msg]
    requires forall i :: 0 <= i < |Lives(s)| && i != life ==> Lives(s')[i].sent == Lives(s)[i].sent
    requires life < |Lives(s)| - 1 ==> msg == B.DONE_MARKER
    ensures Streamed(s')
  {
    hide Lives, OfLife;
    forall i | 0 <= i < |Lives(s')| ensures OfLife(s'.stream, i) == Lives(s')[i].sent {
      OfLifeSnoc(s.stream, Sent(life, msg), i);
    }
  }

  // A step that sends nothing, and begins a new lifetime at most.
  lemma QuietKeepsStreamed(s: Slot, s': Slot)
    requires Streamed(s) && s'.stream == s.stream && |Lives(s)| <= |Lives(s')| <= |Lives(s)| + 1
    requires forall i :: 0 <= i < |Lives(s)| ==> Lives(s')[i].sent == Lives(s)[i].sent
    requires |Lives(s)| < |Lives(s')| ==> Lives(s')[|Lives(s)|].sent == []
    ensures Streamed(s')
  {
    hide Lives, OfLife;
    OfNoLife(s.stream, |Lives(s)|);
  }

  lemma ApplyKeepsStreamed(s: Slot, e: Event, n: nat)
    requires n > 0 && Sound(s, n) && Streamed(s)
    ensures Streamed(Apply(s, e, n))
  {
    hide B.Inv, Streamed, B.Flatten;
    var s' := Apply(s, e, n);
    if Hands(s, e) == [] {
      assert s'.stream == s.stream;
      QuietKeepsStreamed(s, s');
    } else if e.Turn? {
      SendKeepsStreamed(s, s', |s.dropped|, s.live.value.drainer.msg);
    } else {
      OnlyMarkerLeft(s.dropped[e.i], n);
      SendKeepsStreamed(s, s', e.i, s.dropped[e.i].drainer.msg);
    }
  }

  lemma UnusedInv(n: nat)
    requires n > 0
    ensures Inv(UNUSED, n)
  {
  }

  lemma ApplyKeepsInv(s: Slot, e: Event, n: nat)
    requires n > 0 && Inv(s, n)
    ensures Inv(Apply(s, e, n), n)
  {
    hide Sound, Streamed, Apply;
    ApplyKeepsSound(s, e, n);
    ApplyKeepsStreamed(s, e, n);
  }

  /** Every interleaving of callers, drainers and cleanups keeps each lifetime sound, and the
      lifetimes one after the other but for done markers. */
  lemma {:induction false} RunKeepsInv(es: seq<Event>, n: nat)
    requires n > 0
    ensures Inv(Run(es, n), n)
  {
    hide Inv, Apply;
    if es == [] {
      UnusedInv(n);
    } else {
      RunKeepsInv(es[..|es| - 1], n);
      ApplyKeepsInv(Run(es[..|es| - 1], n), es[|es| - 1], n);
    }
  }

  /** Cleanup loses nothing: every vote a dropped buffer accepted had been sent; at most the
      done marker is still in its drainer's hands. */
  lemma DroppedWasSent(es: seq<Event>, n: nat, i: nat)
    requires n > 0 && i < |Run(es, n).dropped|
    ensures var b := Run(es, n).dropped[i];
            B.Flatten(b.sent) == b.accepted && (B.InFlight(b) == [] || B.InFlight(b) == [B.DONE_MARKER])
  {
    hide Run, B.Inv, B.Flatten;
    RunKeepsInv(es, n);
    OnlyMarkerLeft(Run(es, n).dropped[i], n);
  }

  /** One cleanup: it takes the buffer out exactly when it is closed, has nothing queued and was
      closed more than ttl ago; any other buffer stays as it is. */
  lemma CleanupTakesTheExpired(s: Slot, ttl: int, now: int, n: nat)
    ensures var (s', gone) := (Apply(s, Cleanup(ttl, now), n),
                               s.live.Some? && s.live.value.closed && |s.live.value.out| == 0
                               && now - s.live.value.closedAt > ttl);
            && s'.live == (if gone then None else s.live)
            && s'.dropped == s.dropped + (if gone then [s.live.value] else [])
            && s'.stream == s.stream
  {
  }

  /** A buffer closed at time t stays, closed, through every cleanup that comes no more than its
      ttl after t. */
  lemma {:induction false} RecentlyClosedStays(before: seq<Event>, t: int, after: seq<Event>, n: nat)
    requires !OrFresh(Run(before, n).live).closed
    requires forall i :: 0 <= i < |after| && after[i].Cleanup? ==> after[i].now - t <= after[i].ttl
    ensures var s := Run(before + [Close(t)] + after, n);
            && s.live.Some? && s.live.value.closed && s.live.value.closedAt == t
            && |s.dropped| == |Run(before, n).dropped|
  {
    hide Apply;
    if after == [] {
      RunMore(before, Close(t), n);
      ClosingStep(Run(before, n), t, n);
      assert before + [Close(t)] + [] == before + [Close(t)];
    } else {
      var init, last := after[..|after| - 1], after[|after| - 1];
      RecentlyClosedStays(before, t, init, n);
      RunMore(before + [Close(t)] + init, last, n);
      assert before + [Close(t)] + after == before + [Close(t)] + init + [last];
      StayingStep(Run(before + [Close(t)] + init, n), last, t, n);
    }
  }

  lemma ClosingStep(s: Slot, t: int, n: nat)
    requires !OrFresh(s.live).closed
    ensures var s' := Apply(s, Close(t), n);
            s'.live.Some? && s'.live.value.closed && s'.live.value.closedAt == t && s'.dropped == s.dropped
  {
  }

  lemma StayingStep(s: Slot, e: Event, t: int, n: nat)
    requires s.live.Some? && s.live.value.closed && s.live.value.closedAt == t
    requires e.Cleanup? ==> e.now - t <= e.ttl
    ensures var s' := Apply(s, e, n);
            s'.live.Some? && s'.live.value.closed && s'.live.value.closedAt == t && |s'.dropped| == |s.dropped|
  {
  }

  // ---- What a done marker covers ----

  lemma {:induction false} OfLifeAppend(a: seq<Sent>, b: seq<Sent>, life: nat)
    ensures OfLife(a + b, life) == OfLife(a, life) + OfLife(b, life)
  {
    if b == [] {
      assert a + b == a;
    } else {
      assert (a + b)[..|a + b| - 1] == a + b[..|b| - 1];
      OfLifeAppend(a, b[..|b| - 1], life);
    }
  }

  lemma {:induction false} NoVotesLeft(stream: seq<Sent>, life: nat)
    requires forall j :: 0 <= j < |stream| && stream[j].life == life ==> stream[j].msg == B.DONE_MARKER
    ensures B.Flatten(OfLife(stream, life)) == []
  {
    if stream == [] {
    } else {
      var init, last := stream[..|stream| - 1], stream[|stream| - 1];
      NoVotesLeft(init, life);
      OfLifeSnoc(init, last, life);
      assert stream == init + [last];
      if last.life == life {
        B.FlattenAppend(OfLife(init, life), [last.msg]);
        B.FlattenOne(last.msg);
      }
    }
  }

  /** A done marker is sent after every vote of its own lifetime and of all earlier ones, even if
      a dropped buffer's drainer held it while a later lifetime began. */
  lemma MarkerCovers(s: Slot, n: nat, j: nat, i: nat)
    requires n > 0 && Inv(s, n) && j < |s.stream| && s.stream[j].msg.done && i <= s.stream[j].life
    ensures var lives := Lives(s);
            && s.stream[j].life < |lives| && lives[i].closed
            && B.Flatten(OfLife(s.stream[..j], i)) == lives[i].accepted
  {
    hide OfLife, B.Inv, B.Flatten;
    var life, msg := s.stream[j].life, s.stream[j].msg;
    var before, after := s.stream[..j], s.stream[j + 1..];
    assert s.stream == before + [s.stream[j]] + after;
    OfLifeAppend(before + [s.stream[j]], after, i);
    OfLifeSnoc(before, s.stream[j], i);
    var b := Lives(s)[i];
    var sent := OfLife(before, i) + (if i == life then [msg] else []) + OfLife(after, i);
    assert b.sent == sent;
    if i == life {
      var at := |OfLife(before, i)|;
      assert b.sent[at] == msg;
      B.SentDoneIsLast(b, n, at);
      MarkerHasNoVotes(b, n, at);
      assert b.sent == OfLife(before, i) + [msg];
      B.FlattenAppend(OfLife(before, i), [msg]);
      B.FlattenOne(msg);
    } else {
      OnlyMarkerLeft(b, n);
      NoVotesLeft(after, i);
      assert b.sent == OfLife(before, i) + OfLife(after, i);
      B.FlattenAppend(OfLife(before, i), OfLife(after, i));
    }
  }

  lemma {:induction false} NoLifeFound(stream: seq<Sent>, life: nat)
    requires OfLife(stream, life) == []
    ensures forall j :: 0 <= j < |stream| ==> stream[j].life != life
  {
    if stream == [] {
    } else {
      NoLifeFound(stream[..|stream| - 1], life);
      assert stream == stream[..|stream| - 1] + [stream[|stream| - 1]];
    }
  }

  /** Votes sent after a done marker belong to a later lifetime. */
  lemma OnlyLaterVotesFollow(s: Slot, n: nat, j: nat, k: nat)
    requires n > 0 && Inv(s, n) && j < k < |s.stream| && s.stream[j].msg.done && !s.stream[k].msg.done
    ensures s.stream[k].life > s.stream[j].life
  {
    hide OfLife, B.Inv;
    var life := s.stream[j].life;
    var before, after := s.stream[..j], s.stream[j + 1..];
    assert s.stream == before + [s.stream[j]] + after;
    OfLifeAppend(before + [s.stream[j]], after, life);
    OfLifeSnoc(before, s.stream[j], life);
    var b, at := Lives(s)[life], |OfLife(before, life)|;
    assert b.sent == OfLife(before, life) + [s.stream[j].msg] + OfLife(after, life);
    assert b.sent[at].done;
    LifeIsSound(s, n, life);
    B.SentDoneIsLast(b, n, at);
    NoLifeFound(after, life);
    assert after[k - j - 1] == s.stream[k];
  }

  lemma LifeIsSound(s: Slot, n: nat, life: nat)
    requires n > 0 && Inv(s, n) && life < |Lives(s)|
    ensures B.Inv(Lives(s)[life], n)
  {
    hide B.Inv, Streamed;
  }

  lemma MarkerHasNoVotes(b: B.PollBuf, n: nat, i: nat)
    requires n > 0 && B.Inv(b, n) && i < |b.sent| && b.sent[i].done
    ensures b.sent[i].votes == []
  {
    var stream := B.Stream(b.accepted, b.closed, n);
    assert b.sent + B.InFlight(b) + b.out == stream;
    assert stream[i] == b.sent[i];
    B.StreamShape(b.accepted, b.closed, n, i);
  }

  // ---- One marker per close ----

  // How often the poll has been closed so far.
  function Closed(s: Slot): nat {
    |s.dropped| + if OrFresh(s.live).closed then 1 else 0
  }

  lemma ClosedStep(s: Slot, e: Event, n: nat)
    ensures Closed(Apply(s, e, n)) == Closed(s) + if e.Close? && !OrFresh(s.live).closed then 1 else 0
    ensures |Apply(s, e, n).dropped| > |s.dropped| <==> e.Cleanup? && Goes(s.live, e.ttl, e.now)
    ensures |Apply(s, e, n).dropped| >= |s.dropped|
  {
  }

  lemma {:induction false} ClosesAreLifetimes(es: seq<Event>, n: nat)
    ensures ClosesIn(es, n) == Closed(Run(es, n))
  {
    hide Apply, Closed;
    if es == [] {
      ClosedAtFirst();
    } else {
      ClosesAreLifetimes(es[..|es| - 1], n);
      ClosedStep(Run(es[..|es| - 1], n), es[|es| - 1], n);
    }
  }

  lemma ClosedAtFirst()
    ensures Closed(UNUSED) == 0
  {
  }

  lemma {:induction false} MarkerPerDropped(bs: seq<B.PollBuf>, n: nat)
    requires n > 0 && forall i :: 0 <= i < |bs| ==> B.Inv(bs[i], n) && bs[i].closed
    ensures MarkersOfAll(bs) == |bs|
  {
    if bs == [] {
    } else {
      MarkerPerDropped(bs[..|bs| - 1], n);
      MarkerPerClosed(bs[|bs| - 1], n);
    }
  }

  /** Over all lifetimes of a poll's buffer, the done markers queued, in flight or sent are as
      many as the calls that found the poll open and closed it. */
  lemma OneMarkerPerClose(es: seq<Event>, n: nat)
    requires n > 0
    ensures MarkersIn(Run(es, n)) == ClosesIn(es, n)
  {
    hide B.Inv;
    var s := Run(es, n);
    RunKeepsInv(es, n);
    ClosesAreLifetimes(es, n);
    MarkerPerDropped(s.dropped, n);
    if s.live.Some? {
      MarkerPerClosed(s.live.value, n);
    }
  }

  lemma PrefixEvents(es: seq<Event>, i: nat, n: nat)
    requires i < |es| - 1
    ensures var init := es[..|es| - 1];
            init[i] == es[i] && Closes(init, i, n) == Closes(es, i, n) && Drops(init, i, n) == Drops(es, i, n)
  {
    assert es[..|es| - 1][..i] == es[..i];
  }

  lemma {:induction false} DroppedByCleanup(es: seq<Event>, n: nat)
    ensures Run(es, n).dropped != [] <==> exists i :: 0 <= i < |es| && Drops(es, i, n)
  {
    hide Apply, Goes;
    if es == [] {
    } else {
      var init := es[..|es| - 1];
      DroppedByCleanup(init, n);
      forall i | 0 <= i < |init| ensures Drops(init, i, n) == Drops(es, i, n) { PrefixEvents(es, i, n); }
      ClosedStep(Run(init, n), es[|es| - 1], n);
      assert Drops(es, |init|, n) <==> |Run(es, n).dropped| > |Run(init, n).dropped|;
      if i :| 0 <= i < |init| && Drops(init, i, n) {
        assert Drops(es, i, n);
      }
    }
  }

  ghost predicate ClosedAgain(es: seq<Event>, n: nat) {
    exists i, j :: 0 <= i < j < |es| && Drops(es, i, n) && Closes(es, j, n)
  }

  lemma {:induction false} SecondClose(es: seq<Event>, n: nat)
    requires n > 0
    ensures ClosesIn(es, n) > 1 <==> ClosedAgain(es, n)
  {
    if es == [] {
    } else {
      var init, last := es[..|es| - 1], |es| - 1;
      SecondClose(init, n);
      ClosesAreLifetimes(init, n);
      DroppedByCleanup(init, n);
      forall i | 0 <= i < last
        ensures Closes(init, i, n) == Closes(es, i, n) && Drops(init, i, n) == Drops(es, i, n)
      {
        PrefixEvents(es, i, n);
      }
      if ClosedAgain(init, n) {
        var i, j :| 0 <= i < j < |init| && Drops(init, i, n) && Closes(init, j, n);
        assert Drops(es, i, n) && Closes(es, j, n);
      }
      if Closes(es, last, n) && Run(init, n).dropped != [] {
        var i :| 0 <= i < |init| && Drops(init, i, n);
        assert Drops(es, i, n);
      }
      if ClosedAgain(es, n) {
        var i, j :| 0 <= i < j < |es| && Drops(es, i, n) && Closes(es, j, n);
        assert Drops(init, i, n);
        assert j < last ==> Closes(init, j, n);
      }
    }
  }

  /** A poll gets more than one done marker exactly when a call closes it after a cleanup has
      dropped its buffer. */
  lemma MoreThanOneMarker(es: seq<Event>, n: nat)
    requires n > 0
    ensures MarkersIn(Run(es, n)) > 1
       <==> exists i, j :: 0 <= i < j < |es| && Drops(es, i, n) && Closes(es, j, n)
  {
    OneMarkerPerClose(es, n);
    SecondClose(es, n);
  }

  // An empty poll from its close to the end of its drainer's work.
  lemma ShortLife(now: int)
    ensures var b := B.CloseBuf(B.FRESH, now);
            && B.DrainerTurn(b).drainer == B.Sending(B.DONE_MARKER)
            && B.DrainerTurn(b).closed && B.DrainerTurn(b).closedAt == now && B.DrainerTurn(b).out == []
            && var b2 := B.DrainerTurn(B.DrainerTurn(b));
               b2.closed && b2.closedAt == now && b2.out == [] && b2.sent == [B.DONE_MARKER]
  {
  }

  // The poll is closed and its drainer takes up the marker.
  lemma CloseAndTake(es: seq<Event>, n: nat, now: int)
    requires Run(es, n).live == None
    ensures var (s, s') := (Run(es, n), Run(es + [Close(now)] + [Turn], n));
            && s'.live == Some(B.DrainerTurn(B.CloseBuf(B.FRESH, now)))
            && s'.dropped == s.dropped && s'.stream == s.stream
  {
    hide Run, B.DrainerTurn;
    RunMore(es, Close(now), n);
    RunMore(es + [Close(now)], Turn, n);
  }

  lemma OneLife(es: seq<Event>, n: nat, now: int)
    requires Run(es, n).live == None
    ensures var (s, s') := (Run(es, n), Run(es + [Close(now)] + [Turn] + [Turn], n));
            && s'.live == Some(B.DrainerTurn(B.DrainerTurn(B.CloseBuf(B.FRESH, now))))
            && s'.dropped == s.dropped && s'.stream == s.stream + [Sent(|s.dropped|, B.DONE_MARKER)]
  {
    hide Run, B.DrainerTurn, B.CloseBuf;
    ShortLife(now);
    CloseAndTake(es, n, now);
    RunMore(es + [Close(now)] + [Turn], Turn, n);
  }

  /** It happens: closed, drained, cleaned up after ttl, and closed once more, a poll has had two
      done markers sent, one by each drainer. */
  lemma ClosedDrainedCleanedClosed(n: nat, first: int, ttl: int, later: int, again: int) returns (es: seq<Event>)
    requires n > 0 && later - first > ttl
    ensures es == [] + [Close(first)] + [Turn] + [Turn] + [Cleanup(ttl, later)] + [Close(again)] + [Turn] + [Turn]
    ensures Run(es, n).stream == [Sent(0, B.DONE_MARKER), Sent(1, B.DONE_MARKER)]
    ensures MarkersIn(Run(es, n)) == 2
  {
    hide Run, B.CloseBuf, B.DrainerTurn, B.Inv, Markers, Inv;
    NothingYet(n);
    ShortLife(first);
    OneLife([], n, first);
    var drained := [] + [Close(first)] + [Turn] + [Turn];
    RunMore(drained, Cleanup(ttl, later), n);
    var cleaned := drained + [Cleanup(ttl, later)];
    OneLife(cleaned, n, again);
    es := cleaned + [Close(again)] + [Turn] + [Turn];
    ShortLife(again);
    TwoMarkers(es, n);
  }

  lemma NothingYet(n: nat)
    ensures Run([], n) == UNUSED
  {
  }

  lemma TwoMarkers(es: seq<Event>, n: nat)
    requires n > 0 && |Run(es, n).dropped| == 1 && Run(es, n).live.Some? && Run(es, n).live.value.closed
    ensures MarkersIn(Run(es, n)) == 2
  {
    hide Run, Markers, B.Inv;
    RunKeepsInv(es, n);
    var s := Run(es, n);
    MarkerPerDropped(s.dropped, n);
    MarkerPerClosed(s.live.value, n);
  }

  /** A marker covers no later lifetime: dropped while its drainer holds the marker, the first
      buffer's done mark goes out after a vote of the second has been accepted and not sent. */
  lemma MarkerBeforeLaterVote(n: nat, first: int, ttl: int, later: int, v: Vote) returns (es: seq<Event>)
    requires n > 1 && later - first > ttl
    ensures var s := Run(es, n);
            && s.stream == [Sent(0, B.DONE_MARKER)]
            && |s.dropped| == 1 && s.live.Some? && !s.live.value.closed && s.live.value.accepted == [v]
  {
    hide Run, B.CloseBuf, B.DrainerTurn;
    NothingYet(n);
    ShortLife(first);
    CloseAndTake([], n, first);
    var held := [] + [Close(first)] + [Turn];
    RunMore(held, Cleanup(ttl, later), n);
    RunMore(held + [Cleanup(ttl, later)], Add(v), n);
    var added := held + [Cleanup(ttl, later)] + [Add(v)];
    RunMore(added, TurnDropped(0), n);
    es := added + [TurnDropped(0)];
  }

  // ---- Counting the marks ----

  function Messages(stream: seq<Sent>): seq<B.OutMsg> {
    seq(|stream|, j requires 0 <= j < |stream| => stream[j].msg)
  }

  // Markers of the first lifetimes.
  function DonesBelow(stream: seq<Sent>, life: nat): nat {
    if stream == [] then 0
    else
      var init, last := stream[..|stream| - 1], stream[|stream| - 1];
      DonesBelow(init, life) + if last.msg.done && last.life < life then 1 else 0
  }

  lemma DonesSnoc(ms: seq<B.OutMsg>, m: B.OutMsg)
    ensures Dones(ms + [m]) == Dones(ms) + if m.done then 1 else 0
  {
    assert (ms + [m])[..|ms|] == ms;
  }

  lemma {:induction false} DonesOfNextLife(stream: seq<Sent>, life: nat)
    ensures DonesBelow(stream, life + 1) == DonesBelow(stream, life) + Dones(OfLife(stream, life))
    ensures DonesBelow(stream, 0) == 0
  {
    if stream == [] {
    } else {
      var init, last := stream[..|stream| - 1], stream[|stream| - 1];
      DonesOfNextLife(init, life);
      DonesSnoc(OfLife(init, life), last.msg);
    }
  }

  lemma {:induction false} AllBelow(stream: seq<Sent>, life: nat)
    requires forall j :: 0 <= j < |stream| && stream[j].msg.done ==> stream[j].life < life
    ensures DonesBelow(stream, life) == Dones(Messages(stream))
  {
    if stream == [] {
    } else {
      var init, last := stream[..|stream| - 1], stream[|stream| - 1];
      AllBelow(init, life);
      assert Messages(stream) == Messages(init) + [last.msg];
      DonesSnoc(Messages(init), last.msg);
    }
  }

  lemma {:induction false} AtMostOneEach(stream: seq<Sent>, life: nat)
    requires forall i: nat :: i < life ==> Dones(OfLife(stream, i)) <= 1
    ensures DonesBelow(stream, life) <= life
  {
    DonesOfNextLife(stream, if life == 0 then 0 else life - 1);
    if life == 0 {
    } else {
      AtMostOneEach(stream, life - 1);
    }
  }

  lemma {:induction false} DonesOfPrefix(a: seq<B.OutMsg>, b: seq<B.OutMsg>)
    ensures Dones(a) <= Dones(a + b)
  {
    if b == [] {
      assert a + b == a;
    } else {
      DonesOfPrefix(a, b[..|b| - 1]);
      assert a + b == (a + b[..|b| - 1]) + [b[|b| - 1]];
      DonesSnoc(a + b[..|b| - 1], b[|b| - 1]);
    }
  }

  lemma OneMarkerInLife(s: Slot, n: nat, m: nat, life: nat)
    requires n > 0 && Inv(s, n) && m <= |s.stream|
    ensures Dones(OfLife(s.stream[..m], life)) <= 1
  {
    hide OfLife, Dones, B.Inv;
    assert s.stream == s.stream[..m] + s.stream[m..];
    OfLifeAppend(s.stream[..m], s.stream[m..], life);
    DonesOfPrefix(OfLife(s.stream[..m], life), OfLife(s.stream[m..], life));
    if life < |Lives(s)| {
      var b := Lives(s)[life];
      MarkerPerClosed(b, n);
      assert b.sent + B.InFlight(b) + b.out == b.sent + (B.InFlight(b) + b.out);
      DonesOfPrefix(b.sent, B.InFlight(b) + b.out);
    } else {
      OfNoLife(s.stream, life);
      NoDones([]);
    }
  }

  /** With d done markers among the first m sends of a poll, every vote of at least its first d
      lifetimes is among them. */
  lemma MarkersCoverLives(s: Slot, n: nat, m: nat, i: nat)
    requires n > 0 && Inv(s, n) && m <= |s.stream| && i < Dones(Messages(s.stream[..m]))
    ensures i < |Lives(s)| && B.Flatten(OfLife(s.stream[..m], i)) == Lives(s)[i].accepted
  {
    hide OfLife, Dones, B.Inv, B.Flatten, Streamed;
    var stream := s.stream[..m];
    if forall j :: 0 <= j < m && stream[j].msg.done ==> stream[j].life < i {
      AllBelow(stream, i);
      forall k: nat | k < i ensures Dones(OfLife(stream, k)) <= 1 { OneMarkerInLife(s, n, m, k); }
      AtMostOneEach(stream, i);
    } else {
      var j :| 0 <= j < m && stream[j].msg.done && stream[j].life >= i;
      MarkerCovers(s, n, j, i);
      LaterAddsNothing(s, n, j, m, i);
    }
  }

  // What a lifetime has sent by the time its votes are covered stays all of its votes.
  lemma LaterAddsNothing(s: Slot, n: nat, j: nat, m: nat, i: nat)
    requires n > 0 && Inv(s, n) && j < m <= |s.stream| && i < |Lives(s)|
    requires B.Flatten(OfLife(s.stream[..j], i)) == Lives(s)[i].accepted
    ensures B.Flatten(OfLife(s.stream[..m], i)) == Lives(s)[i].accepted
  {
    hide OfLife, B.Inv, B.Flatten;
    var b := Lives(s)[i];
    var (first, next, rest) := (s.stream[..j], s.stream[j..m], s.stream[m..]);
    assert s.stream[..m] == first + next && s.stream == first + next + rest;
    OfLifeAppend(first, next, i);
    OfLifeAppend(first + next, rest, i);
    B.FlattenAppend(OfLife(first, i), OfLife(next, i));
    B.FlattenAppend(OfLife(first + next, i), OfLife(rest, i));
    B.Conserved(b, n);
    var all := B.Flatten(OfLife(first + next, i)) + B.Flatten(OfLife(rest, i));
    assert b.accepted == all + B.Flatten(B.InFlight(b)) + B.Flatten(b.out) + b.votes;
    assert |B.Flatten(OfLife(next, i))| == 0;
  }
}
