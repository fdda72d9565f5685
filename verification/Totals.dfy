/** The results document built from a poll's tally: one line per option, in ascending order. */
module Totals {
  import opened Votes

  datatype OptionResult = OptionResult(option: int, count: nat)

  datatype Results = Results(total: nat, options: seq<OptionResult>, workersSeen: nat, workersDone: nat)

  ghost predicate Ascending(s: seq<int>) {
    forall i, j :: 0 <= i < j < |s| ==> s[i] < s[j]
  }

  function Elements(s: seq<int>): set<int> {
    set i | 0 <= i < |s| :: s[i]
  }

  ghost function OptionIds(options: seq<OptionResult>): seq<int> {
    seq(|options|, i requires 0 <= i < |options| => options[i].option)
  }

  // What it means to be the results of a tally.
  ghost predicate IsResultsOf(t: Tally, r: Results) {
    && Ascending(OptionIds(r.options))
    && (forall o :: o in OptionIds(r.options) <==> o in t.counts)
    && (forall i :: 0 <= i < |r.options| ==> r.options[i].count == CountOf(t, r.options[i].option))
    && r.total == Sum(t.counts)
    && r.workersSeen == |t.seen|
    && r.workersDone == |t.doneBy|
  }

  function Insert(x: int, s: seq<int>): (r: seq<int>)
    ensures multiset(r) == multiset(s) + multiset{x}
  {
    if s == [] || x <= s[0] then [x] + s
    else
      assert s == [s[0]] + s[1..];
      [s[0]] + Insert(x, s[1..])
  }

  // The library's integer sort; only its contract matters.
  function SortInts(s: seq<int>): (r: seq<int>)
    ensures multiset(r) == multiset(s)
  {
    if s == [] then []
    else
      assert s == [s[0]] + s[1..];
      Insert(s[0], SortInts(s[1..]))
  }

  lemma {:induction false} InsertKeepsAscending(x: int, s: seq<int>)
    requires Ascending(s) && x !in s
    ensures Ascending(Insert(x, s))
    ensures forall y :: y in Insert(x, s) <==> y == x || y in s
  {
    if s == [] || x <= s[0] {
    } else {
      assert s == [s[0]] + s[1..];
      InsertKeepsAscending(x, s[1..]);
      var r := Insert(x, s[1..]);
      forall k | 0 <= k < |r|
        ensures s[0] < r[k]
      {
        assert r[k] in r;
      }
    }
  }

  lemma {:induction false} SortIntsAscending(s: seq<int>)
    requires Distinct(s)
    ensures Ascending(SortInts(s))
    ensures forall y :: y in SortInts(s) <==> y in s
  {
    if s == [] {
    } else {
      assert s == [s[0]] + s[1..];
      SortIntsAscending(s[1..]);
      InsertKeepsAscending(s[0], SortInts(s[1..]));
    }
  }

  /** A strictly ascending list is determined by its elements. */
  lemma {:induction false} AscendingUnique(a: seq<int>, b: seq<int>)
    requires Ascending(a) && Ascending(b)
    requires forall x :: x in a <==> x in b
    ensures a == b
  {
    if a == [] {
      assert forall i :: 0 <= i < |b| ==> b[i] in a;
    } else {
      assert a[0] in a;
      assert b[0] in b;
      assert a[0] == b[0];
      assert a == [a[0]] + a[1..] && b == [b[0]] + b[1..];
      forall x
        ensures x in a[1..] <==> x in b[1..]
      {
        TailMembers(a, x);
        TailMembers(b, x);
      }
      AscendingUnique(a[1..], b[1..]);
    }
  }

  lemma TailMembers(s: seq<int>, x: int)
    requires Ascending(s) && s != []
    ensures x in s[1..] <==> x in s && x != s[0]
  {
    assert s == [s[0]] + s[1..];
    if x in s[1..] {
      var i :| 0 <= i < |s[1..]| && s[1..][i] == x;
      assert s[1 + i] == x;
    }
  }

  /** The results of a tally are unique: no iteration order of the count map can show. */
  lemma ResultsUnique(t: Tally, a: Results, b: Results)
    requires IsResultsOf(t, a) && IsResultsOf(t, b)
    ensures a == b
  {
    AscendingUnique(OptionIds(a.options), OptionIds(b.options));
    forall i | 0 <= i < |a.options|
      ensures a.options[i] == b.options[i]
    {
      assert OptionIds(a.options)[i] == OptionIds(b.options)[i];
    }
    assert |a.options| == |OptionIds(a.options)| == |b.options|;
  }

  ghost predicate Distinct(s: seq<int>) {
    forall i, j :: 0 <= i < j < |s| ==> s[i] != s[j]
  }

  // The keys of the count map, in whatever order the map is iterated.
  method CollectKeys(counts: map<int, nat>) returns (ids: seq<int>)
    ensures Distinct(ids)
    ensures forall o :: o in ids <==> o in counts
  {
    ids := [];
    var rest := counts.Keys;
    while exists id :: id in rest
      invariant rest <= counts.Keys
      invariant Distinct(ids)
      invariant forall o :: o in ids <==> o in counts && o !in rest
      decreases rest
    {
      var id :| id in rest;
      ids := ids + [id];
      rest := rest - {id};
    }
  }

  /** Collects the option ids in an arbitrary order, sorts them, and sums the counts. Whatever
      order the map yields, the outcome is the one document that IsResultsOf describes. */
  method BuildResults(t: Tally) returns (r: Results)
    ensures r == ResultsOf(t)
  {
    var optionIds := CollectKeys(t.counts);
    SortIntsAscending(optionIds);
    optionIds := SortInts(optionIds);

    var options, total := SumUp(t, optionIds);
    r := Results(total, options, |t.seen|, |t.doneBy|);
    ResultsUnique(t, r, ResultsOf(t));
  }

  // The loop over the sorted ids.
  method SumUp(t: Tally, optionIds: seq<int>) returns (options: seq<OptionResult>, total: nat)
    requires Ascending(optionIds)
    requires forall o :: o in optionIds <==> o in t.counts
    ensures OptionIds(options) == optionIds
    ensures forall i :: 0 <= i < |options| ==> options[i].count == CountOf(t, options[i].option)
    ensures total == Sum(t.counts)
  {
    options, total := [], 0;
    for i := 0 to |optionIds|
      invariant OptionIds(options) == optionIds[..i]
      invariant forall k :: 0 <= k < i ==> options[k].count == CountOf(t, optionIds[k])
      invariant Elements(optionIds[..i]) <= t.counts.Keys
      invariant total == SumOver(t.counts, Elements(optionIds[..i]))
    {
      var id := optionIds[i];
      assert id in optionIds;
      AddToSum(t.counts, optionIds, i);
      options := options + [OptionResult(id, t.counts[id])];
      assert optionIds[..i + 1] == optionIds[..i] + [id];
      total := total + t.counts[id];
    }
    assert optionIds[..|optionIds|] == optionIds;
    ElementsAre(optionIds, t.counts.Keys);
    assert forall i :: 0 <= i < |options| ==> options[i].option == OptionIds(options)[i];
  }

  lemma ElementsAre(ids: seq<int>, keys: set<int>)
    requires forall o :: o in ids <==> o in keys
    ensures Elements(ids) == keys
  {
    forall o | o in keys
      ensures o in Elements(ids)
    {
      assert o in ids;
    }
    forall o | o in Elements(ids)
      ensures o in keys
    {
      assert o in ids;
    }
  }

  lemma AddToSum(m: map<int, nat>, ids: seq<int>, i: nat)
    requires i < |ids| && Ascending(ids)
    requires forall o :: o in ids ==> o in m
    ensures Elements(ids[..i]) <= m.Keys && Elements(ids[..i + 1]) <= m.Keys
    ensures SumOver(m, Elements(ids[..i + 1])) == SumOver(m, Elements(ids[..i])) + m[ids[i]]
  {
    var before, after := Elements(ids[..i]), Elements(ids[..i + 1]);
    assert ids[i] in ids;
    assert ids[i] in after by { assert ids[..i + 1][i] == ids[i]; }
    assert ids[i] !in before;
    forall o | o in after && o != ids[i]
      ensures o in before
    {
      var k :| 0 <= k < i + 1 && ids[..i + 1][k] == o;
      assert ids[..i][k] == o;
    }
    forall o | o in before
      ensures o in after
    {
      var k :| 0 <= k < i && ids[..i][k] == o;
      assert ids[..i + 1][k] == o;
    }
    assert forall o :: o in after ==> o in ids;
    assert after - {ids[i]} == before;
    SumOut(m, after, ids[i]);
  }

  ghost function SortedKeys(keys: set<int>): (s: seq<int>)
    ensures Ascending(s)
    ensures forall o :: o in s <==> o in keys
  {
    if k :| k in keys then
      InsertKeepsAscending(k, SortedKeys(keys - {k}));
      Insert(k, SortedKeys(keys - {k}))
    else []
  }

  // The one results document of a tally, for use in specifications.
  ghost function ResultsOf(t: Tally): (r: Results)
    ensures IsResultsOf(t, r)
  {
    var ids := SortedKeys(t.counts.Keys);
    var options := seq(|ids|, i requires 0 <= i < |ids| => OptionResult(ids[i], CountOf(t, ids[i])));
    assert OptionIds(options) == ids;
    Results(Sum(t.counts), options, |t.seen|, |t.doneBy|)
  }

  /** The reported workers are those that sent a message, and those that sent a done mark. */
  lemma WorkersAreCounted(bs: seq<Batch>)
    ensures ResultsOf(AbsorbAll(bs)).workersSeen == |set b | b in bs && b.worker != "" :: b.worker|
    ensures ResultsOf(AbsorbAll(bs)).workersDone == |set b | b in bs && b.worker != "" && b.done :: b.worker|
  {
    hide AbsorbAll;
    WorkerMembers(bs);
    assert AbsorbAll(bs).seen == set b | b in bs && b.worker != "" :: b.worker;
    assert AbsorbAll(bs).doneBy == set b | b in bs && b.worker != "" && b.done :: b.worker;
  }

  /** The reported total is the number of distinct fingerprints among all absorbed votes. */
  lemma TotalCountsEachVoterOnce(bs: seq<Batch>)
    ensures ResultsOf(AbsorbAll(bs)).total == |FingerprintsOf(VotesOf(bs))|
  {
    TotalIsDistinctFingerprints(bs);
  }
}
