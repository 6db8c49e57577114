/** The aggregator's k-way merge of per-shard partial top-k lists (merge_results).
    Distances are only ever compared, so they are modelled as reals; the round's
    initial best distance is the largest finite single-precision float. */
module Merge {

  /** Largest finite single-precision float, the starting "best" distance of every round. */
  const FloatMax: real := 340282346638528859811704183484516925440.0

  /** One shard's partial top-k for one query: a view of k distances and k ids inside a
      result block. `base` names the block's storage; `ownFields` marks the single view
      responsible for releasing it. */
  datatype PartialResult = PartialResult(dists: seq<real>, ids: seq<int>, ownFields: bool, base: nat)

  /** Every view holds at least k distances and k ids. */
  predicate WellFormed(results: seq<PartialResult>, k: nat) {
    forall s :: 0 <= s < |results| ==> |results[s].dists| >= k && |results[s].ids| >= k
  }

  /** What the merge needs of its caller: at least one shard, well-formed views, and every
      distance strictly below the sentinel (otherwise a round can choose no shard). */
  predicate Admissible(results: seq<PartialResult>, k: nat) {
    |results| >= 1 && WellFormed(results, k) &&
    forall s, j :: 0 <= s < |results| && 0 <= j < k ==> results[s].dists[j] < FloatMax
  }

  /** Each shard's first k distances are ascending, as the index engine returns them. */
  predicate Sorted(results: seq<PartialResult>, k: nat)
    requires WellFormed(results, k)
  {
    forall s, i, j :: 0 <= s < |results| && 0 <= i <= j < k ==> results[s].dists[i] <= results[s].dists[j]
  }

  /** One cursor per shard, none beyond k. */
  predicate CountersInRange(counter: seq<nat>, n: nat, k: nat) {
    |counter| == n && forall s :: 0 <= s < n ==> counter[s] <= k
  }

  /** The best candidate of a scan: its distance, its id and the shard it came from (-1: none). */
  datatype Choice = Choice(dist: real, id: int, shard: int)

  /** The inner loop of one round over shards 0..n-1: skip exhausted shards, keep the first
      candidate whose distance is strictly smaller than the best so far. */
  function Scan(results: seq<PartialResult>, counter: seq<nat>, k: nat, n: nat): (c: Choice)
    requires WellFormed(results, k) && CountersInRange(counter, |results|, k) && n <= |results|
    ensures c.shard == -1 || (0 <= c.shard < n && counter[c.shard] < k)
    decreases n
  {
    if n == 0 then Choice(FloatMax, -1, -1)
    else
      var best := Scan(results, counter, k, n - 1);
      var s := n - 1;
      if counter[s] == k then best
      else if results[s].dists[counter[s]] < best.dist then
        Choice(results[s].dists[counter[s]], results[s].ids[counter[s]], s)
      else best
  }

  /** The merge after some rounds: the cursors, the ids written so far, the distances they
      were chosen with, and the shard each came from. */
  datatype MergeState = MergeState(counter: seq<nat>, answers: seq<int>, picked: seq<real>, from: seq<int>)

  /** One round: scan the shards, append the chosen id and distance, advance the chosen
      shard's cursor. A round that chooses no shard (impossible for admissible input, see
      RoundPicksLeftmostMinimum) leaves the cursors alone. */
  function Step(results: seq<PartialResult>, k: nat, st: MergeState): (st': MergeState)
    requires WellFormed(results, k) && CountersInRange(st.counter, |results|, k)
    ensures CountersInRange(st'.counter, |results|, k)
    ensures |st'.answers| == |st.answers| + 1 && |st'.picked| == |st.picked| + 1 && |st'.from| == |st.from| + 1
  {
    var c := Scan(results, st.counter, k, |results|);
    MergeState(if c.shard >= 0 then st.counter[c.shard := st.counter[c.shard] + 1] else st.counter,
               st.answers + [c.id], st.picked + [c.dist], st.from + [c.shard])
  }

  /** The merge after t rounds, starting from all cursors at 0. */
  function Rounds(results: seq<PartialResult>, k: nat, t: nat): (st: MergeState)
    requires WellFormed(results, k)
    ensures CountersInRange(st.counter, |results|, k)
    ensures |st.answers| == t && |st.picked| == t && |st.from| == t
    decreases t
  {
    if t == 0 then MergeState(seq(|results|, _ => 0), [], [], [])
    else Step(results, k, Rounds(results, k, t - 1))
  }

  /** merge_results: k rounds, each writing one id into answers[offset..offset+k) and
      advancing the chosen shard's cursor. Nothing outside that window is written. */
  method MergeResults(results: seq<PartialResult>, answers: array<int>, offset: nat, nshards: nat, k: nat)
    requires nshards == |results| && Admissible(results, k)
    requires offset + k <= answers.Length
    modifies answers
    ensures answers[offset..offset + k] == Rounds(results, k, k).answers
    ensures forall i :: 0 <= i < answers.Length && !(offset <= i < offset + k) ==> answers[i] == old(answers[i])
  {
    var counter: seq<nat> := seq(nshards, _ => 0);
    var topi := 0;
    while topi < k
      invariant 0 <= topi <= k
      invariant counter == Rounds(results, k, topi).counter
      invariant answers[offset..offset + topi] == Rounds(results, k, topi).answers
      invariant forall i :: 0 <= i < answers.Length && !(offset <= i < offset + topi) ==> answers[i] == old(answers[i])
    {
      var bestDist, bestId, fromShard := ScanShards(results, counter, nshards, k);
      ghost var before := answers[..];
      AdvanceCounter(results, k, topi, counter, fromShard, bestId);
      answers[offset + topi] := bestId;
      counter := counter[fromShard := counter[fromShard] + 1];
      assert answers[offset..offset + topi + 1] == before[offset..offset + topi] + [bestId];
      topi := topi + 1;
    }
  }

  /** The bookkeeping of one round of merge_results, stated on the cursors alone. */
  lemma AdvanceCounter(results: seq<PartialResult>, k: nat, t: nat, cs: seq<nat>, f: int, id: int)
    requires Admissible(results, k) && t < k
    requires cs == Rounds(results, k, t).counter
    requires f == Scan(results, cs, k, |results|).shard && id == Scan(results, cs, k, |results|).id
    ensures 0 <= f < |cs|
    ensures Rounds(results, k, t + 1).counter == cs[f := cs[f] + 1]
    ensures Rounds(results, k, t + 1).answers == Rounds(results, k, t).answers + [id]
  {
    RoundStepChosen(results, k, t);
  }

  /** The inner loop of one round of merge_results: the leftmost strictly smallest head
      among the shards whose cursor has not reached k. */
  method ScanShards(results: seq<PartialResult>, counter: seq<nat>, nshards: nat, k: nat)
    returns (bestDist: real, bestId: int, fromShard: int)
    requires nshards == |results| == |counter|
    requires WellFormed(results, k) && CountersInRange(counter, nshards, k)
    ensures Choice(bestDist, bestId, fromShard) == Scan(results, counter, k, nshards)
  {
    bestDist, bestId, fromShard := FloatMax, -1, -1;
    var shard := 0;
    while shard < nshards
      invariant 0 <= shard <= nshards
      invariant Choice(bestDist, bestId, fromShard) == Scan(results, counter, k, shard)
    {
      if counter[shard] != k && results[shard].dists[counter[shard]] < bestDist {
        bestDist := results[shard].dists[counter[shard]];
        bestId := results[shard].ids[counter[shard]];
        fromShard := shard;
      }
      shard := shard + 1;
    }
  }

  /** Sum of the cursors. */
  function Sum(c: seq<nat>): nat {
    if c == [] then 0 else c[0] + Sum(c[1..])
  }

  /** How many of the first n rounds chose shard s. */
  function Count(from: seq<int>, n: nat, s: int): nat
    requires n <= |from|
  {
    if n == 0 then 0 else Count(from, n - 1, s) + (if from[n - 1] == s then 1 else 0)
  }

  /** Appending rounds does not change the counts of earlier rounds. */
  lemma {:induction false} CountAppend(from: seq<int>, x: int, n: nat, s: int)
    requires n <= |from|
    ensures Count(from + [x], n, s) == Count(from, n, s)
  {
    if n > 0 {
      CountAppend(from, x, n - 1, s);
    }
  }

  lemma {:induction false} SumAtLeastEach(c: seq<nat>, i: nat)
    requires i < |c|
    ensures Sum(c) >= c[i]
  {
    if i > 0 {
      SumAtLeastEach(c[1..], i - 1);
    }
  }

  lemma {:induction false} SumIncrement(c: seq<nat>, i: nat)
    requires i < |c|
    ensures Sum(c[i := c[i] + 1]) == Sum(c) + 1
  {
    if i == 0 {
      assert c[i := c[i] + 1][1..] == c[1..];
    } else {
      assert c[i := c[i] + 1][1..] == c[1..][i - 1 := c[i] + 1];
      SumIncrement(c[1..], i - 1);
    }
  }

  /** The scan of one round returns the leftmost minimum among the heads of the shards that
      are not exhausted; when it returns no shard, every such head is at or above the sentinel. */
  lemma {:induction false} ScanIsLeftmostMinimum(results: seq<PartialResult>, counter: seq<nat>, k: nat, n: nat)
    requires WellFormed(results, k) && CountersInRange(counter, |results|, k) && n <= |results|
    ensures var c := Scan(results, counter, k, n);
      c.dist <= FloatMax &&
      (c.shard == -1 ==> c.dist == FloatMax) &&
      (c.shard == -1 ==> forall s :: 0 <= s < n && counter[s] < k ==> results[s].dists[counter[s]] >= FloatMax) &&
      (c.shard >= 0 ==>
        c.dist == results[c.shard].dists[counter[c.shard]] && c.id == results[c.shard].ids[counter[c.shard]] &&
        (forall s :: 0 <= s < n && counter[s] < k ==> c.dist <= results[s].dists[counter[s]]) &&
        (forall s :: 0 <= s < c.shard && counter[s] < k ==> c.dist < results[s].dists[counter[s]]))
  {
    if n > 0 {
      ScanIsLeftmostMinimum(results, counter, k, n - 1);
    }
  }

  /** After t <= k rounds of an admissible merge the cursors add up to t. */
  lemma {:induction false} RoundsSum(results: seq<PartialResult>, k: nat, t: nat)
    requires Admissible(results, k) && t <= k
    ensures Sum(Rounds(results, k, t).counter) == t
  {
    if t == 0 {
      ZerosSum(|results|);
    } else {
      RoundsSum(results, k, t - 1);
      var st := Rounds(results, k, t - 1);
      ShardOpen(results, k, st);
      var f := Scan(results, st.counter, k, |results|).shard;
      assert Rounds(results, k, t).counter == st.counter[f := st.counter[f] + 1];
      SumIncrement(st.counter, f);
    }
  }

  /** Every one of the first t <= k rounds of an admissible merge chose a real shard. */
  lemma {:induction false} RoundsFromShards(results: seq<PartialResult>, k: nat, t: nat)
    requires Admissible(results, k) && t <= k
    ensures forall u :: 0 <= u < t ==> 0 <= Rounds(results, k, t).from[u] < |results|
  {
    if t > 0 {
      RoundsFromShards(results, k, t - 1);
      RoundStepChosen(results, k, t - 1);
    }
  }

  /** After t <= k rounds of an admissible merge each cursor counts the rounds that chose
      its shard. */
  lemma {:induction false} RoundsCount(results: seq<PartialResult>, k: nat, t: nat)
    requires Admissible(results, k) && t <= k
    ensures forall s :: 0 <= s < |results| ==> Rounds(results, k, t).counter[s] == Count(Rounds(results, k, t).from, t, s)
  {
    if t > 0 {
      RoundsCount(results, k, t - 1);
      RoundStepChosen(results, k, t - 1);
      var st := Rounds(results, k, t - 1);
      var f := Scan(results, st.counter, k, |results|).shard;
      var st' := Rounds(results, k, t);
      forall s | 0 <= s < |results|
        ensures st'.counter[s] == Count(st'.from, t, s)
      {
        CountAppend(st.from, f, t - 1, s);
      }
    }
  }

  lemma {:induction false} ZerosSum(n: nat)
    ensures Sum(seq(n, _ => 0)) == 0
  {
    if n > 0 {
      assert seq(n, _ => 0)[1..] == seq(n - 1, _ => 0);
      ZerosSum(n - 1);
    }
  }

  /** While fewer than k entries have been taken in all, some shard is open and, all
      distances being below the sentinel, the scan chooses one. */
  lemma ShardOpen(results: seq<PartialResult>, k: nat, st: MergeState)
    requires Admissible(results, k) && CountersInRange(st.counter, |results|, k)
    requires Sum(st.counter) < k
    ensures Scan(results, st.counter, k, |results|).shard >= 0
  {
    SumAtLeastEach(st.counter, 0);
    assert st.counter[0] < k;
    ScanIsLeftmostMinimum(results, st.counter, k, |results|);
  }

  /** Round t (t < k) of an admissible merge chooses a real shard and is the round that
      appends the scan's choice and advances its cursor. */
  lemma RoundStepChosen(results: seq<PartialResult>, k: nat, t: nat)
    requires Admissible(results, k) && t < k
    ensures var st := Rounds(results, k, t);
      var c := Scan(results, st.counter, k, |results|);
      0 <= c.shard < |results| &&
      Rounds(results, k, t + 1) ==
        MergeState(st.counter[c.shard := st.counter[c.shard] + 1], st.answers + [c.id],
                   st.picked + [c.dist], st.from + [c.shard])
  {
    RoundsSum(results, k, t);
    ShardOpen(results, k, Rounds(results, k, t));
  }

  /** Round t (t < k) of an admissible merge chooses a real shard (fromShard != -1): the
      leftmost shard whose current head is minimal among the open shards, so on equal
      distances the lowest shard index wins. The round appends that head's id and distance
      and advances that shard's cursor only. */
  lemma RoundPicksLeftmostMinimum(results: seq<PartialResult>, k: nat, t: nat)
    requires Admissible(results, k) && t < k
    ensures var st := Rounds(results, k, t);
      var c := st.counter;
      var f := Rounds(results, k, t + 1).from[t];
      0 <= f < |results| && c[f] < k &&
      Rounds(results, k, t + 1) ==
        MergeState(c[f := c[f] + 1], st.answers + [results[f].ids[c[f]]],
                   st.picked + [results[f].dists[c[f]]], st.from + [f]) &&
      (forall s :: 0 <= s < |results| && c[s] < k ==> results[f].dists[c[f]] <= results[s].dists[c[s]]) &&
      (forall s :: 0 <= s < f && c[s] < k ==> results[f].dists[c[f]] < results[s].dists[c[s]])
  {
    RoundStepChosen(results, k, t);
    var st := Rounds(results, k, t);
    ScanIsLeftmostMinimum(results, st.counter, k, |results|);
  }

  /** Every distance already chosen is at most every distance not yet taken. */
  ghost predicate PickedBelowRest(results: seq<PartialResult>, k: nat, st: MergeState)
    requires WellFormed(results, k) && CountersInRange(st.counter, |results|, k)
  {
    forall u, s, j :: 0 <= u < |st.picked| && 0 <= s < |results| && st.counter[s] <= j < k ==>
      st.picked[u] <= results[s].dists[j]
  }

  /** With sorted shards, after t rounds every chosen distance is at most every entry that
      was not taken. */
  lemma {:induction false} RoundsBelowRest(results: seq<PartialResult>, k: nat, t: nat)
    requires Admissible(results, k) && Sorted(results, k) && t <= k
    ensures PickedBelowRest(results, k, Rounds(results, k, t))
  {
    if t > 0 {
      RoundsBelowRest(results, k, t - 1);
      RoundPicksLeftmostMinimum(results, k, t - 1);
      var prev := Rounds(results, k, t - 1);
      var st := Rounds(results, k, t);
      forall u, s, j | 0 <= u < t && 0 <= s < |results| && st.counter[s] <= j < k
        ensures st.picked[u] <= results[s].dists[j]
      {
        if u < t - 1 {
          assert st.picked[u] == prev.picked[u];
        } else {
          assert results[s].dists[prev.counter[s]] <= results[s].dists[j];
        }
      }
    }
  }

  /** With sorted shards the chosen distances are non-decreasing. */
  lemma {:induction false} RoundsAscending(results: seq<PartialResult>, k: nat, t: nat)
    requires Admissible(results, k) && Sorted(results, k) && t <= k
    ensures forall u, v :: 0 <= u <= v < t ==> Rounds(results, k, t).picked[u] <= Rounds(results, k, t).picked[v]
  {
    if t > 0 {
      RoundsAscending(results, k, t - 1);
      RoundsBelowRest(results, k, t - 1);
      RoundPicksLeftmostMinimum(results, k, t - 1);
      var prev := Rounds(results, k, t - 1);
      var st := Rounds(results, k, t);
      var f := st.from[t - 1];
      assert st.picked == prev.picked + [results[f].dists[prev.counter[f]]];
      forall u | 0 <= u < t - 1
        ensures prev.picked[u] <= results[f].dists[prev.counter[f]]
      {
      }
    }
  }

  /** Round u takes the next untaken entry of the shard it chooses: after t > u rounds, the
      id and distance of round u are entry number Count(from, u, from[u]) of shard from[u]. */
  lemma {:induction false} RoundTakesFront(results: seq<PartialResult>, k: nat, t: nat, u: nat)
    requires Admissible(results, k) && u < t <= k
    ensures var st := Rounds(results, k, t);
      var f := st.from[u];
      0 <= f < |results| && Count(st.from, u, f) < k &&
      st.answers[u] == results[f].ids[Count(st.from, u, f)] &&
      st.picked[u] == results[f].dists[Count(st.from, u, f)]
  {
    var prev := Rounds(results, k, t - 1);
    var st := Rounds(results, k, t);
    RoundPicksLeftmostMinimum(results, k, t - 1);
    var f := st.from[t - 1];
    if u == t - 1 {
      RoundsCount(results, k, t - 1);
      CountAppend(prev.from, f, t - 1, f);
    } else {
      RoundTakesFront(results, k, t - 1, u);
      CountAppend(prev.from, f, u, prev.from[u]);
      assert st.from[u] == prev.from[u] && st.answers[u] == prev.answers[u] && st.picked[u] == prev.picked[u];
    }
  }

  /** merge_results computes the true ascending top-k of the union of sorted shard lists:
      exactly k ids; shard s contributes its first counter[s] entries, the counters adding up
      to k; round u takes entry Count(from, u, from[u]) of shard from[u]; every chosen
      distance is at most every entry left behind; and the chosen distances ascend. */
  lemma MergeIsTopK(results: seq<PartialResult>, k: nat)
    requires Admissible(results, k) && Sorted(results, k)
    ensures var st := Rounds(results, k, k);
      |st.answers| == k && Sum(st.counter) == k &&
      (forall s :: 0 <= s < |results| ==> st.counter[s] == Count(st.from, k, s)) &&
      (forall u :: 0 <= u < k ==>
        0 <= st.from[u] < |results| && Count(st.from, u, st.from[u]) < st.counter[st.from[u]] &&
        st.answers[u] == results[st.from[u]].ids[Count(st.from, u, st.from[u])] &&
        st.picked[u] == results[st.from[u]].dists[Count(st.from, u, st.from[u])]) &&
      PickedBelowRest(results, k, st) &&
      (forall u, v :: 0 <= u <= v < k ==> st.picked[u] <= st.picked[v])
  {
    RoundsSum(results, k, k);
    RoundsFromShards(results, k, k);
    RoundsCount(results, k, k);
    RoundsBelowRest(results, k, k);
    RoundsAscending(results, k, k);
    var st := Rounds(results, k, k);
    forall u | 0 <= u < k
      ensures 0 <= st.from[u] < |results| && Count(st.from, u, st.from[u]) < st.counter[st.from[u]]
      ensures st.answers[u] == results[st.from[u]].ids[Count(st.from, u, st.from[u])]
      ensures st.picked[u] == results[st.from[u]].dists[Count(st.from, u, st.from[u])]
    {
      RoundTakesFront(results, k, k, u);
      CountGrows(st.from, u, k, st.from[u]);
    }
  }

  /** Counting past an occurrence of s counts it. */
  lemma {:induction false} CountGrows(from: seq<int>, u: nat, n: nat, s: int)
    requires u < n <= |from| && from[u] == s
    ensures Count(from, u, s) < Count(from, n, s)
  {
    if n - 1 > u {
      CountGrows(from, u, n - 1, s);
    }
  }

  /** The worked example: k = 3, shard 0 = [(1.0,10),(2.0,11),(5.0,12)],
      shard 1 = [(1.5,20),(3.0,21),(4.0,22)] merges to [10, 20, 11]. */
  lemma MergeExample()
    ensures Rounds([PartialResult([1.0, 2.0, 5.0], [10, 11, 12], false, 0),
                    PartialResult([1.5, 3.0, 4.0], [20, 21, 22], false, 1)], 3, 3).answers == [10, 20, 11]
  {
    var rs := [PartialResult([1.0, 2.0, 5.0], [10, 11, 12], false, 0),
               PartialResult([1.5, 3.0, 4.0], [20, 21, 22], false, 1)];
    assert Rounds(rs, 3, 0).counter == [0, 0];
    assert Scan(rs, [0, 0], 3, 1) == Choice(1.0, 10, 0);
    assert Scan(rs, [0, 0], 3, 2) == Choice(1.0, 10, 0);
    assert Rounds(rs, 3, 1) == MergeState([1, 0], [10], [1.0], [0]);
    assert Scan(rs, [1, 0], 3, 1) == Choice(2.0, 11, 0);
    assert Scan(rs, [1, 0], 3, 2) == Choice(1.5, 20, 1);
    assert Rounds(rs, 3, 2) == MergeState([1, 1], [10, 20], [1.0, 1.5], [0, 1]);
    assert Scan(rs, [1, 1], 3, 1) == Choice(2.0, 11, 0);
    assert Scan(rs, [1, 1], 3, 2) == Choice(2.0, 11, 0);
  }
}
