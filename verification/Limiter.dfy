/** The per-client limit on issued cookies: a counter per key, and the keys in insertion order
    so that old ones can be evicted. A key may stand in the order more than once. */
module Limiter {
  import opened Basics

  datatype Entry = Entry(count: nat, expiresAt: int)

  datatype State = State(entries: map<string, Entry>, order: seq<string>)

  const EMPTY := State(map[], [])

  const COMPACT_ABOVE := 64

  predicate Live(entries: map<string, Entry>, key: string, now: int) {
    key in entries && now < entries[key].expiresAt
  }

  function KeptOrder(entries: map<string, Entry>, order: seq<string>, now: int): seq<string> {
    if order == [] then []
    else
      var init, last := KeptOrder(entries, order[..|order| - 1], now), order[|order| - 1];
      if Live(entries, last, now) then init + [last] else init
  }

  // Only a key the order mentions can be dropped.
  function KeptEntries(entries: map<string, Entry>, order: seq<string>, now: int): map<string, Entry> {
    map key | key in entries && (key !in order || Live(entries, key, now)) :: entries[key]
  }

  function Compact(s: State, now: int): State {
    if |s.order| > COMPACT_ABOVE then State(KeptEntries(s.entries, s.order, now), KeptOrder(s.entries, s.order, now))
    else s
  }

  function Trim(s: State, max: int): State
    decreases |s.order|
  {
    if |s.entries| > max && |s.order| > 0 then Trim(State(s.entries - {s.order[0]}, s.order[1..]), max)
    else s
  }

  function Evict(s: State, max: int, now: int): State {
    if max > 0 then Trim(Compact(s, now), max) else Compact(s, now)
  }

  // One call, with the clock readings at its start and inside the eviction.
  datatype Call = Call(key: string, limit: int, expiresAt: int, now: int, evictNow: int)

  predicate Granted(s: State, c: Call) {
    || c.limit <= 0
    || c.key !in s.entries
    || c.now > s.entries[c.key].expiresAt
    || s.entries[c.key].count < c.limit
  }

  function Answered(s: State, max: int, c: Call): State {
    if c.limit <= 0 then s
    else if c.key !in s.entries || c.now > s.entries[c.key].expiresAt then
      Evict(State(s.entries[c.key := Entry(1, c.expiresAt)], s.order + [c.key]), max, c.evictNow)
    else
      var count := s.entries[c.key].count;
      s.(entries := s.entries[c.key := Entry(if count >= c.limit then count else count + 1, c.expiresAt)])
  }

  function RunFrom(s: State, max: int, calls: seq<Call>): State {
    if calls == [] then s else Answered(RunFrom(s, max, calls[..|calls| - 1]), max, calls[|calls| - 1])
  }

  function Run(max: int, calls: seq<Call>): State {
    RunFrom(EMPTY, max, calls)
  }

  // ---- The bound ----

  ghost predicate Ordered(s: State) {
    forall key :: key in s.entries ==> key in s.order
  }

  lemma {:induction false} KeptOrderMembers(entries: map<string, Entry>, order: seq<string>, now: int)
    ensures forall key :: key in KeptOrder(entries, order, now) <==> key in order && Live(entries, key, now)
    ensures |KeptOrder(entries, order, now)| <= |order|
  {
    if order == [] {
    } else {
      KeptOrderMembers(entries, order[..|order| - 1], now);
      assert order == order[..|order| - 1] + [order[|order| - 1]];
    }
  }

  /** Compaction, of an order of more than 64 keys, drops exactly the expired ones from both the
      order and the map. */
  lemma CompactionDropsTheExpired(s: State, now: int)
    requires Ordered(s)
    ensures |s.order| <= 64 ==> Compact(s, now) == s
    ensures Ordered(Compact(s, now))
    ensures |s.order| > 64 ==>
              forall key :: key in Compact(s, now).entries <==> key in s.entries && now < s.entries[key].expiresAt
    ensures forall key :: key in Compact(s, now).entries ==> Compact(s, now).entries[key] == s.entries[key]
  {
    KeptOrderMembers(s.entries, s.order, now);
  }

  lemma KeptOne(entries: map<string, Entry>, key: string, now: int)
    ensures KeptOrder(entries, [key], now) == if key in entries && now < entries[key].expiresAt then [key] else []
    ensures KeptOrder(entries, [], now) == []
  {
    assert [key][..0] == [];
  }

  lemma KeptSnoc(entries: map<string, Entry>, order: seq<string>, key: string, now: int)
    ensures KeptOrder(entries, order + [key], now)
         == KeptOrder(entries, order, now) + if Live(entries, key, now) then [key] else []
  {
    assert (order + [key])[..|order|] == order;
  }

  /** Compaction keeps the order of the keys it keeps, repetitions and all. */
  lemma {:induction false} KeptInOrder(entries: map<string, Entry>, a: seq<string>, b: seq<string>, now: int)
    ensures KeptOrder(entries, a + b, now) == KeptOrder(entries, a, now) + KeptOrder(entries, b, now)
    ensures |b| == 1 ==>
              KeptOrder(entries, b, now) == if b[0] in entries && now < entries[b[0]].expiresAt then b else []
  {
    hide KeptOrder;
    KeptOne(entries, "", now);
    if b == [] {
      assert a + b == a;
    } else {
      var init, last := b[..|b| - 1], b[|b| - 1];
      KeptInOrder(entries, a, init, now);
      assert a + b == (a + init) + [last] && b == init + [last];
      KeptSnoc(entries, a + init, last, now);
      KeptSnoc(entries, init, last, now);
      KeptOne(entries, last, now);
      assert |b| == 1 ==> b == [last];
    }
  }

  lemma {:induction false} TrimBounds(s: State, max: int)
    requires Ordered(s) && max >= 0
    ensures Ordered(Trim(s, max)) && |Trim(s, max).entries| <= max
    decreases |s.order|
  {
    if |s.order| == 0 {
      assert s.entries.Keys == {};
    } else if |s.entries| > max {
      var next := State(s.entries - {s.order[0]}, s.order[1..]);
      forall key | key in next.entries
        ensures key in next.order
      {
        assert key in s.order && key != s.order[0];
        assert s.order == [s.order[0]] + s.order[1..];
      }
      TrimBounds(next, max);
    }
  }

  lemma EvictKeepsOrdered(s: State, max: int, now: int)
    requires Ordered(s)
    ensures Ordered(Evict(s, max, now))
    ensures max > 0 ==> |Evict(s, max, now).entries| <= max
  {
    if |s.order| > COMPACT_ABOVE {
      CompactionDropsTheExpired(s, now);
    }
    if max > 0 {
      TrimBounds(Compact(s, now), max);
    }
  }

  lemma AnswerKeepsOrdered(s: State, max: int, c: Call)
    requires Ordered(s) && (max > 0 ==> |s.entries| <= max)
    ensures Ordered(Answered(s, max, c)) && (max > 0 ==> |Answered(s, max, c).entries| <= max)
  {
    hide Evict;
    if c.key !in s.entries || c.now > s.entries[c.key].expiresAt {
      EvictKeepsOrdered(State(s.entries[c.key := Entry(1, c.expiresAt)], s.order + [c.key]), max, c.evictNow);
    } else {
      assert s.entries[c.key := Entry(1, c.expiresAt)].Keys == s.entries.Keys;
      assert Answered(s, max, c).entries.Keys == s.entries.Keys;
    }
  }

  lemma {:induction false} RunKeepsOrdered(s: State, max: int, calls: seq<Call>)
    requires Ordered(s) && (max > 0 ==> |s.entries| <= max)
    ensures Ordered(RunFrom(s, max, calls)) && (max > 0 ==> |RunFrom(s, max, calls).entries| <= max)
  {
    hide Answered;
    if calls == [] {
    } else {
      RunKeepsOrdered(s, max, calls[..|calls| - 1]);
      AnswerKeepsOrdered(RunFrom(s, max, calls[..|calls| - 1]), max, calls[|calls| - 1]);
    }
  }

  /** With a limit on the number of entries, no call ever leaves more than that. */
  lemma EntriesAreBounded(max: int, calls: seq<Call>)
    ensures Ordered(Run(max, calls))
    ensures max > 0 ==> |Run(max, calls).entries| <= max
  {
    RunKeepsOrdered(EMPTY, max, calls);
  }

  // The entries without those of the first k keys of the order.
  function Without(s: State, k: nat): map<string, Entry>
    requires k <= |s.order|
  {
    s.entries - set key | key in s.order[..k]
  }

  lemma WithoutOneMore(s: State, j: nat)
    requires |s.order| > 0 && j < |s.order|
    ensures Without(State(s.entries - {s.order[0]}, s.order[1..]), j) == Without(s, j + 1)
  {
    assert s.order[..j + 1] == [s.order[0]] + s.order[1..][..j];
  }

  lemma WithoutNone(s: State)
    ensures Without(s, 0) == s.entries
  {
  }

  /** Eviction takes the oldest keys off the front of the order, with their entries, and no more of
      them than the bound demands. */
  lemma {:induction false} TrimDropsTheOldest(s: State, max: int) returns (k: nat)
    ensures k <= |s.order| && Trim(s, max) == State(Without(s, k), s.order[k..])
    ensures forall j: nat :: j < k ==> |Without(s, j)| > max
    ensures k == |s.order| || |Without(s, k)| <= max
    decreases |s.order|
  {
    hide Without;
    WithoutNone(s);
    if |s.entries| <= max || |s.order| == 0 {
      k := 0;
    } else {
      var next := State(s.entries - {s.order[0]}, s.order[1..]);
      var n := TrimDropsTheOldest(next, max);
      k := n + 1;
      assert s.order[k..] == next.order[n..];
      forall j: nat | j <= n ensures Without(next, j) == Without(s, j + 1) { WithoutOneMore(s, j); }
      forall j: nat | j < k
        ensures |Without(s, j)| > max
      {
        if j == 0 {
        } else {
          assert |Without(next, j - 1)| > max;
        }
      }
    }
  }

  // ---- The limit ----

  function CallsFor(calls: seq<Call>, key: string): nat {
    if calls == [] then 0
    else CallsFor(calls[..|calls| - 1], key) + if calls[|calls| - 1].key == key then 1 else 0
  }

  // The call starts a new entry, and the order has grown enough to be compacted.
  predicate Compacts(s: State, c: Call) {
    c.limit > 0 && (c.key !in s.entries || c.now > s.entries[c.key].expiresAt) && |s.order| >= COMPACT_ABOVE
  }

  // From a state on, all calls for the key agree on limit and expiry and come no later than the
  // expiry, and whoever's call compacts reads the clock before the expiry.
  ghost predicate Steady(s: State, calls: seq<Call>, key: string, limit: int, expiresAt: int) {
    forall i :: 0 <= i < |calls| ==>
      && (calls[i].key == key ==>
            calls[i].limit == limit && calls[i].expiresAt == expiresAt && calls[i].now <= expiresAt)
      && (Compacts(RunFrom(s, 0, calls[..i]), calls[i]) ==> calls[i].evictNow < expiresAt)
  }

  function Min(a: int, b: int): int { if a < b then a else b }

  // The entry of a key after n calls for it.
  function Counter(n: nat, limit: nat, expiresAt: int): Option<Entry> {
    if n == 0 then None else Some(Entry(Min(n, limit), expiresAt))
  }

  function EntryOf(s: State, key: string): Option<Entry> {
    if key in s.entries then Some(s.entries[key]) else None
  }

  // A compaction before the expiry does not touch the key.
  lemma EvictKeepsKey(s: State, key: string, now: int)
    requires Ordered(s) && (key in s.entries && |s.order| > COMPACT_ABOVE ==> now < s.entries[key].expiresAt)
    ensures EntryOf(Evict(s, 0, now), key) == EntryOf(s, key)
  {
    if |s.order| > COMPACT_ABOVE {
      CompactionDropsTheExpired(s, now);
    }
  }

  lemma OneMoreCall(s: State, c: Call, key: string, limit: nat, expiresAt: int, n: nat)
    requires limit > 0 && Ordered(s) && EntryOf(s, key) == Counter(n, limit, expiresAt)
    requires c.key == key ==> c.limit == limit && c.expiresAt == expiresAt && c.now <= expiresAt
    requires Compacts(s, c) ==> c.evictNow < expiresAt
    ensures EntryOf(Answered(s, 0, c), key) == Counter(if c.key == key then n + 1 else n, limit, expiresAt)
  {
    hide Evict;
    if c.limit > 0 && (c.key !in s.entries || c.now > s.entries[c.key].expiresAt) {
      EvictKeepsKey(State(s.entries[c.key := Entry(1, c.expiresAt)], s.order + [c.key]), key, c.evictNow);
    }
  }

  lemma {:induction false} CounterIsExact(s: State, calls: seq<Call>, key: string, limit: nat, expiresAt: int, n: nat)
    requires limit > 0 && Ordered(s) && EntryOf(s, key) == Counter(n, limit, expiresAt)
    requires Steady(s, calls, key, limit, expiresAt)
    ensures EntryOf(RunFrom(s, 0, calls), key) == Counter(n + CallsFor(calls, key), limit, expiresAt)
  {
    hide Answered, Counter;
    if calls == [] {
    } else {
      var init, c := calls[..|calls| - 1], calls[|calls| - 1];
      forall i | 0 <= i < |init| ensures init[i] == calls[i] && init[..i] == calls[..i] { }
      CounterIsExact(s, init, key, limit, expiresAt, n);
      RunKeepsOrdered(s, 0, init);
      OneMoreCall(RunFrom(s, 0, init), c, key, limit, expiresAt, n + CallsFor(init, key));
    }
  }

  /** Without an entry limit, and up to the key's fixed expiry, exactly the first `limit` calls
      for a key are granted, whatever calls for other keys, at whatever times, and compactions
      before the expiry come in between. */
  lemma FirstCallsAreGranted(before: seq<Call>, c: Call)
    requires c.limit > 0 && c.now <= c.expiresAt && Steady(EMPTY, before, c.key, c.limit, c.expiresAt)
    ensures Granted(Run(0, before), c) <==> CallsFor(before, c.key) < c.limit
  {
    hide Steady, RunFrom, Granted, Counter;
    NothingCounted(c.key, c.limit, c.expiresAt);
    CounterIsExact(EMPTY, before, c.key, c.limit, c.expiresAt, 0);
    GrantedByCounter(Run(0, before), c, CallsFor(before, c.key));
  }

  lemma NothingCounted(key: string, limit: nat, expiresAt: int)
    ensures Ordered(EMPTY) && EntryOf(EMPTY, key) == Counter(0, limit, expiresAt)
  {
  }

  lemma GrantedByCounter(s: State, c: Call, n: nat)
    requires c.limit > 0 && c.now <= c.expiresAt && EntryOf(s, c.key) == Counter(n, c.limit, c.expiresAt)
    ensures Granted(s, c) <==> n < c.limit
  {
  }

  /** Past its expiry a key starts over: the first call is granted whatever was counted before,
      and it is the first of the next `limit`, up to its own expiry. */
  lemma ExpiredKeysStartOver(s: State, c: Call, more: seq<Call>, next: Call)
    requires Ordered(s) && c.limit > 0 && c.key in s.entries && c.now > s.entries[c.key].expiresAt
    requires Compacts(s, c) ==> c.evictNow < c.expiresAt
    requires Steady(Answered(s, 0, c), more, c.key, c.limit, c.expiresAt)
    requires next.key == c.key && next.limit == c.limit && next.now <= c.expiresAt
    ensures Granted(s, c)
    ensures Granted(RunFrom(Answered(s, 0, c), 0, more), next) <==> 1 + CallsFor(more, c.key) < c.limit
  {
    hide Steady, RunFrom, Answered, Counter;
    StartsAtOne(s, c);
    AnswerKeepsOrdered(s, 0, c);
    CounterIsExact(Answered(s, 0, c), more, c.key, c.limit, c.expiresAt, 1);
    GrantedByCounter(RunFrom(Answered(s, 0, c), 0, more), next.(expiresAt := c.expiresAt), 1 + CallsFor(more, c.key));
  }

  lemma StartsAtOne(s: State, c: Call)
    requires Ordered(s) && c.limit > 0 && c.key in s.entries && c.now > s.entries[c.key].expiresAt
    requires Compacts(s, c) ==> c.evictNow < c.expiresAt
    ensures EntryOf(Answered(s, 0, c), c.key) == Counter(1, c.limit, c.expiresAt)
  {
    hide Evict;
    var started := State(s.entries[c.key := Entry(1, c.expiresAt)], s.order + [c.key]);
    assert Ordered(started);
    EvictKeepsKey(started, c.key, c.evictNow);
  }

  /** Up to its expiry a key's entry counts the granted calls and takes over the expiry of every
      call, granted or refused; a call with no limit, or for a key that counts, moves nothing else. */
  lemma CallsInTime(s: State, max: int, c: Call)
    requires c.limit > 0 && c.key in s.entries && c.now <= s.entries[c.key].expiresAt
    ensures var (before, s') := (s.entries[c.key], Answered(s, max, c));
            && (Granted(s, c) <==> before.count < c.limit)
            && s'.order == s.order && s'.entries.Keys == s.entries.Keys
            && s'.entries[c.key].expiresAt == c.expiresAt
            && s'.entries[c.key].count == before.count + (if before.count < c.limit then 1 else 0)
            && forall key :: key in s.entries && key != c.key ==> s'.entries[key] == s.entries[key]
  {
  }

  /** A key that has no entry, or an expired one, gets a new one and goes to the back of the order;
      unless there are too many keys, nothing else changes. */
  lemma NewKeysGoLast(s: State, max: int, c: Call)
    requires c.limit > 0 && (c.key in s.entries ==> c.now > s.entries[c.key].expiresAt)
    requires |s.order| < 64 && (max > 0 ==> |s.entries| < max)
    ensures Granted(s, c)
    ensures Answered(s, max, c) == State(s.entries[c.key := Entry(1, c.expiresAt)], s.order + [c.key])
  {
    var entries := s.entries[c.key := Entry(1, c.expiresAt)];
    assert entries.Keys == s.entries.Keys + {c.key};
    assert |entries| <= |s.entries| + 1;
  }

  /** A limit of zero or less is no limit: everything is granted and nothing remembered. */
  lemma NoLimit(s: State, max: int, c: Call)
    requires c.limit <= 0
    ensures Granted(s, c) && Answered(s, max, c) == s
  {
  }

  /** The strict bound on the compaction's clock matters: at the very instant of expiry a call
      for the key still counts on the old counter, but a compaction forgets it. */
  lemma ExpiryInstantDependsOnCompaction(s: State, key: string, now: int, c: Call)
    requires Ordered(s) && |s.order| >= COMPACT_ABOVE
    requires key in s.entries && s.entries[key].expiresAt == now && s.entries[key].count >= c.limit > 0
    requires c.key !in s.entries && c.evictNow == now
    ensures var again := Call(key, c.limit, now, now, now);
            !Granted(s, again) && Granted(Answered(s, 0, c), again)
  {
    var grown := State(s.entries[c.key := Entry(1, c.expiresAt)], s.order + [c.key]);
    CompactionDropsTheExpired(grown, now);
  }

  lemma KeptNothing(before: map<string, Entry>, now: int)
    ensures KeptOrder(before, [], now) == [] && KeptEntries(before, [], now) == before
  {
  }

  // One round of the compaction loop; entries is the map after the rounds before it.
  lemma KeptStep(before: map<string, Entry>, order: seq<string>, i: nat, now: int)
    requires i < |order|
    ensures var (key, entries) := (order[i], KeptEntries(before, order[..i], now));
            && Live(entries, key, now) == Live(before, key, now)
            && KeptOrder(before, order[..i + 1], now)
               == KeptOrder(before, order[..i], now) + (if Live(before, key, now) then [key] else [])
            && KeptEntries(before, order[..i + 1], now)
               == if Live(before, key, now) then entries else entries - {key}
  {
    assert order[..i + 1] == order[..i] + [order[i]] && order[..i + 1][..i] == order[..i];
  }

  // ---- The limiter object ----

  class IssueLimiter {
    const max: int
    var entries: map<string, Entry>
    // The order slice: a window of its backing array.
    var data: array<string>
    var lo: nat
    var hi: nat

    ghost predicate Valid()
      reads this
    {
      lo <= hi <= data.Length
    }

    ghost function View(): State
      requires Valid()
      reads this, data
    {
      State(entries, data[lo..hi])
    }

    constructor (max: int)
      ensures Valid() && fresh(data) && this.max == max && View() == EMPTY
    {
      this.max := max;
      entries := map[];
      data := new string[0];
      lo, hi := 0, 0;
    }

    // What append copies to when the backing array is full.
    static method CopyOf(from: array<string>, lo: nat, n: nat, size: nat) returns (to: array<string>)
      requires lo + n <= from.Length && n <= size
      ensures fresh(to) && to.Length == size && to[..n] == from[lo..lo + n]
    {
      to := new string[size](_ => "");
      for i := 0 to n
        invariant forall k :: 0 <= k < i ==> to[k] == from[lo + k]
      {
        to[i] := from[lo + i];
      }
    }

    method Grow()
      requires Valid() && hi == data.Length
      modifies this`data, this`lo, this`hi
      ensures Valid() && fresh(data) && hi < data.Length && data[lo..hi] == old(data[lo..hi])
    {
      var n := hi - lo;
      var bigger := CopyOf(data, lo, n, 2 * data.Length + 1);
      data, lo, hi := bigger, 0, n;
    }

    method Append(key: string)
      requires Valid()
      modifies this`data, this`lo, this`hi, data
      ensures Valid() && (data == old(data) || fresh(data))
      ensures View() == State(old(entries), old(data[lo..hi]) + [key])
    {
      if hi == data.Length {
        Grow();
      }
      ghost var window := data[lo..hi];
      data[hi] := key;
      assert data[lo..hi] == window;
      hi := hi + 1;
      assert data[lo..hi] == window + [key];
    }

    // One round of the compaction loop: a live key moves to the front, another one leaves the map.
    method KeepOrDelete(i: nat, kept: nat, now: int) returns (more: nat)
      requires Valid() && kept <= i < hi - lo
      modifies this`entries, data
      ensures var key := old(data[lo + i]);
              if Live(old(entries), key, now)
              then more == kept + 1 && entries == old(entries)
                   && data[lo..lo + more] == old(data[lo..lo + kept]) + [key]
              else more == kept && entries == old(entries) - {key} && data[lo..lo + more] == old(data[lo..lo + kept])
      ensures data[lo + i + 1..hi] == old(data[lo + i + 1..hi])
    {
      var key := data[lo + i];
      if key in entries && now < entries[key].expiresAt {
        data[lo + kept] := key;
        return kept + 1;
      }
      entries := entries - {key};
      return kept;
    }

    // After i rounds of compacting what was this order, by what was this map.
    ghost predicate Compacted(order: seq<string>, before: map<string, Entry>, i: nat, kept: nat, now: int)
      reads this, data
    {
      && Valid() && kept <= i <= |order| == hi - lo
      && data[lo..lo + kept] == KeptOrder(before, order[..i], now)
      && data[lo + i..hi] == order[i..]
      && entries == KeptEntries(before, order[..i], now)
    }

    method CompactRound(i: nat, kept: nat, now: int, ghost order: seq<string>, ghost before: map<string, Entry>)
      returns (more: nat)
      requires Compacted(order, before, i, kept, now) && i < |order|
      modifies this`entries, data
      ensures Compacted(order, before, i + 1, more, now)
    {
      hide KeptOrder, KeptEntries, Live;
      assert data[lo + i] == order[i] by { assert data[lo + i..hi][0] == order[i..][0]; }
      assert data[lo + i + 1..hi] == order[i + 1..] by {
        assert data[lo + i..hi][1..] == data[lo + i + 1..hi] && order[i..][1..] == order[i + 1..];
      }
      KeptStep(before, order, i, now);
      more := KeepOrDelete(i, kept, now);
    }

    /** Writes the kept keys over the front of the slice being read, as append to order[:0]
        does; the result is the filter by the map as it was before the loop. */
    method CompactInPlace(now: int)
      requires Valid()
      modifies this`entries, this`hi, data
      ensures Valid() && data == old(data)
      ensures View() == State(KeptEntries(old(entries), old(data[lo..hi]), now),
                              KeptOrder(old(entries), old(data[lo..hi]), now))
    {
      hide KeptOrder, KeptEntries;
      ghost var order, before := data[lo..hi], entries;
      var kept: nat := 0;
      var n := hi - lo;
      assert order[..0] == [];
      KeptNothing(before, now);
      for i := 0 to n
        invariant Compacted(order, before, i, kept, now)
        modifies this`entries, data
      {
        kept := CompactRound(i, kept, now, order, before);
      }
      assert order[..n] == order;
      hi := lo + kept;
    }

    method EvictLocked(now: int)
      requires Valid()
      modifies this`entries, this`lo, this`hi, data
      ensures Valid() && data == old(data)
      ensures View() == Evict(old(View()), max, now)
    {
      hide KeptOrder, KeptEntries;
      if hi - lo > COMPACT_ABOVE {
        CompactInPlace(now);
      }
      if max > 0 {
        ghost var compacted := View();
        while |entries| > max && hi - lo > 0
          invariant Valid() && data == old(data)
          invariant Trim(View(), max) == Trim(compacted, max)
          decreases hi - lo
        {
          ghost var s := View();
          assert data[lo..hi][1..] == data[lo + 1..hi];
          var oldest := data[lo];
          lo := lo + 1;
          entries := entries - {oldest};
          assert View() == State(s.entries - {s.order[0]}, s.order[1..]);
        }
      }
    }

    method Allow(key: string, limit: int, expiresAt: int, now: int, evictNow: int) returns (granted: bool)
      requires Valid()
      modifies this, data
      ensures Valid() && (data == old(data) || fresh(data))
      ensures var c := Call(key, limit, expiresAt, now, evictNow);
              granted == Granted(old(View()), c) && View() == Answered(old(View()), max, c)
    {
      if limit <= 0 {
        return true;
      }
      if key !in entries || now > entries[key].expiresAt {
        entries := entries[key := Entry(1, expiresAt)];
        Append(key);
        EvictLocked(evictNow);
        return true;
      }
      var e := entries[key];
      if e.count >= limit {
        entries := entries[key := e.(expiresAt := expiresAt)];
        return false;
      }
      entries := entries[key := e.(count := e.count + 1, expiresAt := expiresAt)];
      return true;
    }
  }
}
