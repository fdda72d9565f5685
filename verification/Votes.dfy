/** The vote batches exchanged through the log, and what one poll's messages add up to.
    The fold below is the consumer's deduplication: a fingerprint counts once, for the
    option of its first vote. */
module Votes {
  datatype Vote = Vote(fingerprint: string, option: int)

  datatype Batch = Batch(poll: string, worker: string, done: bool, votes: seq<Vote>)

  // The aggregated part of a poll's state in the consumer.
  datatype Tally = Tally(dedup: set<string>, counts: map<int, nat>, seen: set<string>, doneBy: set<string>)

  const NOTHING := Tally({}, map[], {}, {})

  function CountOf(t: Tally, option: int): nat {
    if option in t.counts then t.counts[option] else 0
  }

  function CountVote(t: Tally, v: Vote): Tally {
    if v.fingerprint in t.dedup then t
    else t.(dedup := t.dedup + {v.fingerprint}, counts := t.counts[v.option := CountOf(t, v.option) + 1])
  }

  function CountVotes(t: Tally, votes: seq<Vote>): Tally {
    if votes == [] then t
    else CountVote(CountVotes(t, votes[..|votes| - 1]), votes[|votes| - 1])
  }

  function Absorb(t: Tally, b: Batch): Tally {
    var t1 := if b.worker != "" then t.(seen := t.seen + {b.worker}) else t;
    var t2 := CountVotes(t1, b.votes);
    if b.done && b.worker != "" then t2.(doneBy := t2.doneBy + {b.worker}) else t2
  }

  function AbsorbAll(bs: seq<Batch>): Tally {
    if bs == [] then NOTHING else Absorb(AbsorbAll(bs[..|bs| - 1]), bs[|bs| - 1])
  }

  function VotesOf(bs: seq<Batch>): seq<Vote> {
    if bs == [] then [] else VotesOf(bs[..|bs| - 1]) + bs[|bs| - 1].votes
  }

  // ---- The reference count: the votes that come first for their fingerprint ----

  ghost predicate IsFirst(votes: seq<Vote>, i: nat)
    requires i < |votes|
  {
    forall j :: 0 <= j < i ==> votes[j].fingerprint != votes[i].fingerprint
  }

  ghost function FirstVotes(votes: seq<Vote>, option: int): set<nat> {
    set i: nat | i < |votes| && IsFirst(votes, i) && votes[i].option == option
  }

  ghost function FingerprintsOf(votes: seq<Vote>): set<string> {
    set i | 0 <= i < |votes| :: votes[i].fingerprint
  }

  lemma FingerprintsOfAppend(a: seq<Vote>, b: seq<Vote>)
    ensures FingerprintsOf(a + b) == FingerprintsOf(a) + FingerprintsOf(b)
  {
    forall f | f in FingerprintsOf(a) + FingerprintsOf(b)
      ensures f in FingerprintsOf(a + b)
    {
      if f in FingerprintsOf(a) {
        var i :| 0 <= i < |a| && a[i].fingerprint == f;
        assert (a + b)[i].fingerprint == f;
      } else {
        var i :| 0 <= i < |b| && b[i].fingerprint == f;
        assert (a + b)[|a| + i].fingerprint == f;
      }
    }
  }

  lemma FirstVotesStep(votes: seq<Vote>, option: int)
    requires votes != []
    ensures var init, last := votes[..|votes| - 1], votes[|votes| - 1];
            FirstVotes(votes, option)
            == FirstVotes(init, option)
               + if last.fingerprint !in FingerprintsOf(init) && last.option == option then {|init|} else {}
  {
    var init, last := votes[..|votes| - 1], votes[|votes| - 1];
    forall i: nat | i < |init|
      ensures IsFirst(init, i) == IsFirst(votes, i)
    {
      assert forall j :: 0 <= j < i ==> init[j] == votes[j];
    }
    assert IsFirst(votes, |init|) <==> last.fingerprint !in FingerprintsOf(init) by {
      assert forall j :: 0 <= j < |init| ==> init[j] == votes[j] && init[j].fingerprint in FingerprintsOf(init);
    }
  }

  /** Counting in one pass with a dedup set gives every option exactly the votes that are
      the first of their fingerprint, and remembers exactly the fingerprints that voted. */
  lemma {:induction false} CountsAreFirstVotes(votes: seq<Vote>, option: int)
    ensures var t := CountVotes(NOTHING, votes);
            && t.dedup == FingerprintsOf(votes)
            && CountOf(t, option) == |FirstVotes(votes, option)|
            && (option in t.counts <==> FirstVotes(votes, option) != {})
  {
    if votes == [] {
    } else {
      var init, last := votes[..|votes| - 1], votes[|votes| - 1];
      CountsAreFirstVotes(init, option);
      FirstVotesStep(votes, option);
      assert votes == init + [last];
      FingerprintsOfAppend(init, [last]);
      assert FingerprintsOf([last]) == {last.fingerprint} by { assert [last][0].fingerprint in FingerprintsOf([last]); }
    }
  }

  lemma {:induction false} CountVotesAppend(t: Tally, a: seq<Vote>, b: seq<Vote>)
    ensures CountVotes(t, a + b) == CountVotes(CountVotes(t, a), b)
  {
    if b == [] {
      assert a + b == a;
    } else {
      assert (a + b)[..|a + b| - 1] == a + b[..|b| - 1];
      CountVotesAppend(t, a, b[..|b| - 1]);
    }
  }

  // Counting votes never looks at, nor touches, the worker sets.
  lemma {:induction false} CountVotesFrame(t: Tally, seen: set<string>, doneBy: set<string>, votes: seq<Vote>)
    ensures CountVotes(t.(seen := seen, doneBy := doneBy), votes)
            == CountVotes(t, votes).(seen := seen, doneBy := doneBy)
    ensures CountVotes(t, votes).seen == t.seen && CountVotes(t, votes).doneBy == t.doneBy
  {
    if votes == [] {
    } else {
      CountVotesFrame(t, seen, doneBy, votes[..|votes| - 1]);
    }
  }

  /** Batch boundaries do not matter: the per-batch fold counts like one pass over all votes. */
  lemma {:induction false} AbsorbAllCounts(bs: seq<Batch>)
    ensures AbsorbAll(bs).dedup == CountVotes(NOTHING, VotesOf(bs)).dedup
    ensures AbsorbAll(bs).counts == CountVotes(NOTHING, VotesOf(bs)).counts
    ensures AbsorbAll(bs).dedup == FingerprintsOf(VotesOf(bs))
  {
    CountsAreFirstVotes(VotesOf(bs), 0);
    if bs == [] {
    } else {
      var init, b := bs[..|bs| - 1], bs[|bs| - 1];
      AbsorbAllCounts(init);
      var t := AbsorbAll(init);
      var t1 := if b.worker != "" then t.(seen := t.seen + {b.worker}) else t;
      var plain := CountVotes(NOTHING, VotesOf(init));
      CountVotesAppend(NOTHING, VotesOf(init), b.votes);
      CountVotesFrame(plain, t1.seen, t1.doneBy, b.votes);
      assert plain.(seen := t1.seen, doneBy := t1.doneBy) == t1;
    }
  }

  // ---- Who is in a tally ----

  lemma {:induction false} DedupMembers(bs: seq<Batch>)
    ensures forall f :: f in AbsorbAll(bs).dedup <==> exists b :: b in bs && f in FingerprintsOf(b.votes)
  {
    AbsorbAllCounts(bs);
    if bs == [] {
    } else {
      var init, b := bs[..|bs| - 1], bs[|bs| - 1];
      DedupMembers(init);
      AbsorbAllCounts(init);
      FingerprintsOfAppend(VotesOf(init), b.votes);
      assert forall x :: x in bs <==> x in init || x == b by { assert bs == init + [b]; }
    }
  }

  lemma {:induction false} WorkerMembers(bs: seq<Batch>)
    ensures forall w :: w in AbsorbAll(bs).seen <==> w != "" && exists b :: b in bs && b.worker == w
    ensures forall w :: w in AbsorbAll(bs).doneBy <==> w != "" && exists b :: b in bs && b.worker == w && b.done
  {
    if bs == [] {
    } else {
      var init, b := bs[..|bs| - 1], bs[|bs| - 1];
      WorkerMembers(init);
      var t := AbsorbAll(init);
      var t1 := if b.worker != "" then t.(seen := t.seen + {b.worker}) else t;
      CountVotesFrame(t1, {}, {}, b.votes);
      assert forall x :: x in bs <==> x in init || x == b by { assert bs == init + [b]; }
    }
  }

  lemma {:induction false} VotesOfMembers(bs: seq<Batch>)
    ensures forall v :: v in VotesOf(bs) <==> exists b :: b in bs && v in b.votes
  {
    if bs == [] {
    } else {
      var init, b := bs[..|bs| - 1], bs[|bs| - 1];
      VotesOfMembers(init);
      assert forall x :: x in bs <==> x in init || x == b by { assert bs == init + [b]; }
    }
  }

  /** The set of fingerprints, hence the total, and both worker sets depend only on which
      batches arrived: neither reordering nor redelivery changes them. Nor do the counts of the
      options change, if nobody votes for two of them. */
  lemma TallyIgnoresOrderAndRepetition(a: seq<Batch>, b: seq<Batch>)
    requires forall x :: x in a <==> x in b
    ensures AbsorbAll(a).dedup == AbsorbAll(b).dedup
    ensures AbsorbAll(a).seen == AbsorbAll(b).seen && AbsorbAll(a).doneBy == AbsorbAll(b).doneBy
    ensures Sum(AbsorbAll(a).counts) == Sum(AbsorbAll(b).counts)
    ensures OneOptionEach(VotesOf(a)) ==> AbsorbAll(a).counts == AbsorbAll(b).counts
  {
    hide AbsorbAll, VotesOf, CountVotes, Sum;
    VotesOfMembers(a);
    VotesOfMembers(b);
    AbsorbAllCounts(a);
    AbsorbAllCounts(b);
    if OneOptionEach(VotesOf(a)) {
      CountsOfTheSameVotes(VotesOf(a), VotesOf(b));
    }
    DedupMembers(a);
    DedupMembers(b);
    WorkerMembers(a);
    WorkerMembers(b);
    assert forall f :: f in AbsorbAll(a).dedup <==> f in AbsorbAll(b).dedup;
    assert forall w :: w in AbsorbAll(a).seen <==> w in AbsorbAll(b).seen;
    assert forall w :: w in AbsorbAll(a).doneBy <==> w in AbsorbAll(b).doneBy;
    TotalIsDistinctFingerprints(a);
    TotalIsDistinctFingerprints(b);
  }

  /** Redelivering a batch that was already absorbed changes nothing at all, not even the
      count of a single option. */
  lemma RedeliveryIsIdle(bs: seq<Batch>, b: Batch)
    requires b in bs
    ensures Absorb(AbsorbAll(bs), b) == AbsorbAll(bs)
  {
    DedupMembers(bs);
    WorkerMembers(bs);
    var t := AbsorbAll(bs);
    assert b.worker != "" ==> b.worker in t.seen;
    assert b.done && b.worker != "" ==> b.worker in t.doneBy;
    assert (if b.worker != "" then t.(seen := t.seen + {b.worker}) else t) == t by {
      assert b.worker != "" ==> t.seen + {b.worker} == t.seen;
    }
    forall i | 0 <= i < |b.votes|
      ensures b.votes[i].fingerprint in t.dedup
    {
      assert b.votes[i].fingerprint in FingerprintsOf(b.votes);
    }
    KnownVotesAreIdle(t, b.votes);
    assert b.done && b.worker != "" ==> t.doneBy + {b.worker} == t.doneBy;
  }

  lemma {:induction false} KnownVotesAreIdle(t: Tally, votes: seq<Vote>)
    requires forall i :: 0 <= i < |votes| ==> votes[i].fingerprint in t.dedup
    ensures CountVotes(t, votes) == t
  {
    if votes == [] {
    } else {
      KnownVotesAreIdle(t, votes[..|votes| - 1]);
    }
  }

  // ---- What does depend on order: which option a fingerprint's single vote goes to ----

  ghost predicate OneOptionEach(votes: seq<Vote>) {
    forall v, w :: v in votes && w in votes && v.fingerprint == w.fingerprint ==> v.option == w.option
  }

  ghost function VotersFor(votes: seq<Vote>, option: int): set<string> {
    set v | v in votes && v.option == option :: v.fingerprint
  }

  lemma VotersForAppend(votes: seq<Vote>, v: Vote, option: int)
    ensures VotersFor(votes + [v], option)
         == VotersFor(votes, option) + if v.option == option then {v.fingerprint} else {}
  {
    assert forall w :: w in votes + [v] <==> w in votes || w == v;
    if v.option == option {
      assert v in votes + [v];
    }
  }

  lemma SecondVoteIsTheSame(votes: seq<Vote>, v: Vote)
    requires OneOptionEach(votes + [v])
    ensures OneOptionEach(votes)
    ensures v.fingerprint in FingerprintsOf(votes) <==> v.fingerprint in VotersFor(votes, v.option)
    ensures forall o :: v.fingerprint !in FingerprintsOf(votes) ==> v.fingerprint !in VotersFor(votes, o)
  {
    assert forall w :: w in votes ==> w in votes + [v];
    assert v in votes + [v] by { assert (votes + [v])[|votes|] == v; }
    forall w | w in votes
      ensures w.fingerprint in FingerprintsOf(votes)
    {
      var i :| 0 <= i < |votes| && votes[i] == w;
      assert votes[i].fingerprint in FingerprintsOf(votes);
    }
    if v.fingerprint in FingerprintsOf(votes) {
      var i :| 0 <= i < |votes| && votes[i].fingerprint == v.fingerprint;
      assert votes[i] in votes;
    }
  }

  /** While no fingerprint votes for two options, an option counts everyone who voted for it. */
  lemma {:induction false} CountsAreVoters(votes: seq<Vote>, option: int)
    requires OneOptionEach(votes)
    ensures var t := CountVotes(NOTHING, votes);
            && CountOf(t, option) == |VotersFor(votes, option)|
            && (option in t.counts <==> VotersFor(votes, option) != {})
  {
    hide OneOptionEach, VotersFor, CountVotes, FirstVotes;
    if votes == [] {
      NobodyVotes(option);
    } else {
      var init, last := votes[..|votes| - 1], votes[|votes| - 1];
      assert votes == init + [last];
      SecondVoteIsTheSame(init, last);
      CountsAreVoters(init, option);
      VotersForAppend(init, last, option);
      CountsAreFirstVotes(init, option);
      CountOneMore(init, last);
      var voters := VotersFor(init, option);
      assert last.fingerprint in voters ==> voters + {last.fingerprint} == voters;
    }
  }

  lemma NobodyVotes(option: int)
    ensures VotersFor([], option) == {} && CountVotes(NOTHING, []) == NOTHING
  {
  }

  lemma CountOneMore(votes: seq<Vote>, v: Vote)
    ensures CountVotes(NOTHING, votes + [v]) == CountVote(CountVotes(NOTHING, votes), v)
  {
    assert (votes + [v])[..|votes|] == votes;
  }

  // Then the counts depend on nothing but which votes there are.
  lemma CountsOfTheSameVotes(a: seq<Vote>, b: seq<Vote>)
    requires OneOptionEach(a) && forall v :: v in a <==> v in b
    ensures CountVotes(NOTHING, a).counts == CountVotes(NOTHING, b).counts
  {
    hide CountVotes;
    var c, d := CountVotes(NOTHING, a), CountVotes(NOTHING, b);
    assert OneOptionEach(b);
    forall o
      ensures o in c.counts.Keys <==> o in d.counts.Keys
      ensures o in c.counts && o in d.counts ==> c.counts[o] == d.counts[o]
    {
      CountsAreVoters(a, o);
      CountsAreVoters(b, o);
      assert VotersFor(a, o) == VotersFor(b, o);
    }
  }

  // What more votes add does not depend on the counts so far.
  lemma {:induction false} SameIncrements(t: Tally, u: Tally, votes: seq<Vote>, option: int)
    requires t.dedup == u.dedup
    ensures CountVotes(t, votes).dedup == CountVotes(u, votes).dedup
    ensures CountOf(CountVotes(t, votes), option) - CountOf(t, option)
         == CountOf(CountVotes(u, votes), option) - CountOf(u, option)
  {
    if votes == [] {
    } else {
      SameIncrements(t, u, votes[..|votes| - 1], option);
    }
  }

  lemma SecondOfTwoIsIgnored(x: Vote, y: Vote)
    requires x.fingerprint == y.fingerprint
    ensures CountVotes(NOTHING, [x] + [y]) == CountVote(NOTHING, x)
  {
    var both := [x] + [y];
    assert both[..1] == [x] && [x][..0] == [];
    assert CountVotes(NOTHING, [x]) == CountVote(NOTHING, x);
    assert CountVotes(NOTHING, both) == CountVote(CountVotes(NOTHING, [x]), y);
  }

  // Whoever of two disagreeing votes comes first decides.
  lemma FirstOfTwoDecides(x: Vote, y: Vote, rest: seq<Vote>)
    requires x.fingerprint == y.fingerprint && x.option != y.option
    ensures CountVotes(NOTHING, [x] + [y] + rest).counts != CountVotes(NOTHING, [y] + [x] + rest).counts
  {
    hide CountVotes;
    var t, u := CountVote(NOTHING, x), CountVote(NOTHING, y);
    SecondOfTwoIsIgnored(x, y);
    SecondOfTwoIsIgnored(y, x);
    CountVotesAppend(NOTHING, [x] + [y], rest);
    CountVotesAppend(NOTHING, [y] + [x], rest);
    SameIncrements(t, u, rest, x.option);
    assert CountOf(CountVotes(t, rest), x.option) == CountOf(CountVotes(u, rest), x.option) + 1;
  }

  lemma PairToTheFront(votes: seq<Vote>, i: nat, j: nat) returns (rest: seq<Vote>)
    requires i < j < |votes|
    ensures multiset([votes[i]] + [votes[j]] + rest) == multiset(votes)
    ensures multiset([votes[j]] + [votes[i]] + rest) == multiset(votes)
  {
    var a, b, c := votes[..i], votes[i + 1..j], votes[j + 1..];
    rest := a + b + c;
    assert votes == a + [votes[i]] + b + [votes[j]] + c;
  }

  lemma SameMembers(a: seq<Vote>, b: seq<Vote>)
    requires multiset(a) == multiset(b)
    ensures forall v :: v in a <==> v in b
  {
    assert forall v :: v in a <==> v in multiset(a);
    assert forall v :: v in b <==> v in multiset(b);
  }

  /** The counts of the options are the same for every order of the votes exactly when no
      fingerprint occurs with two different options. */
  lemma CountsIgnoreOrder(votes: seq<Vote>)
    ensures OneOptionEach(votes)
       <==> forall other :: multiset(other) == multiset(votes) ==>
              CountVotes(NOTHING, other).counts == CountVotes(NOTHING, votes).counts
  {
    hide CountVotes;
    if OneOptionEach(votes) {
      forall other | multiset(other) == multiset(votes)
        ensures CountVotes(NOTHING, other).counts == CountVotes(NOTHING, votes).counts
      {
        SameMembers(other, votes);
        CountsOfTheSameVotes(votes, other);
      }
    } else {
      var k, l, rest := TwoDisagree(votes);
      FirstOfTwoDecides(votes[k], votes[l], rest);
    }
  }

  lemma TwoDisagree(votes: seq<Vote>) returns (k: nat, l: nat, rest: seq<Vote>)
    requires !OneOptionEach(votes)
    ensures k < |votes| && l < |votes|
    ensures votes[k].fingerprint == votes[l].fingerprint && votes[k].option != votes[l].option
    ensures multiset([votes[k]] + [votes[l]] + rest) == multiset(votes)
    ensures multiset([votes[l]] + [votes[k]] + rest) == multiset(votes)
  {
    var v, w :| v in votes && w in votes && v.fingerprint == w.fingerprint && v.option != w.option;
    k :| 0 <= k < |votes| && votes[k] == v;
    l :| 0 <= l < |votes| && votes[l] == w;
    if l < k {
      k, l := l, k;
    }
    rest := PairToTheFront(votes, k, l);
  }

  // ---- The sum over all options ----

  ghost function Sum(m: map<int, nat>): nat {
    SumOver(m, m.Keys)
  }

  ghost function SumOver(m: map<int, nat>, keys: set<int>): nat
    requires keys <= m.Keys
  {
    if k :| k in keys then m[k] + SumOver(m, keys - {k}) else 0
  }

  // Any key may be taken out first.
  lemma {:induction false} SumOut(m: map<int, nat>, keys: set<int>, k: int)
    requires keys <= m.Keys && k in keys
    ensures SumOver(m, keys) == m[k] + SumOver(m, keys - {k})
  {
    var j :| j in keys && SumOver(m, keys) == m[j] + SumOver(m, keys - {j});
    if j == k {
    } else {
      SumOut(m, keys - {j}, k);
      SumOut(m, keys - {k}, j);
      assert keys - {j} - {k} == keys - {k} - {j};
    }
  }

  lemma {:induction false} SumFrame(m: map<int, nat>, m': map<int, nat>, keys: set<int>)
    requires keys <= m.Keys && keys <= m'.Keys
    requires forall k :: k in keys ==> m[k] == m'[k]
    ensures SumOver(m, keys) == SumOver(m', keys)
  {
    if k :| k in keys {
      SumOut(m, keys, k);
      SumOut(m', keys, k);
      SumFrame(m, m', keys - {k});
    } else {
    }
  }

  lemma SumIncrement(m: map<int, nat>, k: int)
    ensures Sum(m[k := (if k in m then m[k] else 0) + 1]) == Sum(m) + 1
  {
    var m' := m[k := (if k in m then m[k] else 0) + 1];
    SumOut(m', m'.Keys, k);
    SumFrame(m, m', m.Keys - {k});
    assert m'.Keys - {k} == m.Keys - {k};
    if k in m {
      SumOut(m, m.Keys, k);
    } else {
      assert m.Keys - {k} == m.Keys;
    }
  }

  lemma SumAfterVote(t: Tally, v: Vote)
    ensures var t' := CountVote(t, v); Sum(t'.counts) + |t.dedup| == Sum(t.counts) + |t'.dedup|
  {
    SumIncrement(t.counts, v.option);
  }

  lemma {:induction false} SumIsDedupSize(votes: seq<Vote>)
    ensures Sum(CountVotes(NOTHING, votes).counts) == |CountVotes(NOTHING, votes).dedup|
  {
    if votes == [] {
    } else {
      var t, v := CountVotes(NOTHING, votes[..|votes| - 1]), votes[|votes| - 1];
      SumIsDedupSize(votes[..|votes| - 1]);
      SumAfterVote(t, v);
    }
  }

  /** The options together count each fingerprint exactly once. */
  lemma TotalIsDistinctFingerprints(bs: seq<Batch>)
    ensures Sum(AbsorbAll(bs).counts) == |AbsorbAll(bs).dedup| == |FingerprintsOf(VotesOf(bs))|
  {
    AbsorbAllCounts(bs);
    SumIsDedupSize(VotesOf(bs));
  }

  /** A worker cannot be done without having been seen. */
  lemma DoneWorkersWereSeen(bs: seq<Batch>)
    ensures AbsorbAll(bs).doneBy <= AbsorbAll(bs).seen
  {
    WorkerMembers(bs);
  }
}
