/** Result blocks and the per-shard queues of views into them: how a received block is cut
    into one view per query, and the storage discipline that every block is released
    exactly once, through its one owning view, after all its views have been merged. */
module Blocks {
  import opened Arith
  import opened Merge

  /** View q of a block lies inside the block's k*blockSize entries. */
  lemma ViewFits(k: nat, blockSize: nat, q: nat)
    requires q < blockSize
    ensures k * q + k <= k * blockSize
  {
    assert k * q + k == k * (q + 1);
    MulMono(k, q + 1, blockSize);
  }

  /** View q of a received block stored under handle `base`: entries [k*q, k*q+k), owning
      the storage exactly when it is the block's last view. */
  function View(ids: seq<int>, dists: seq<real>, k: nat, blockSize: nat, q: nat, base: nat): (v: PartialResult)
    requires q < blockSize && |ids| == k * blockSize && |dists| == k * blockSize
    ensures |v.ids| == k && |v.dists| == k && v.base == base
    ensures forall j :: 0 <= j < k ==> k * q + j < k * blockSize && v.ids[j] == ids[k * q + j] && v.dists[j] == dists[k * q + j]
    ensures v.ownFields <==> q == blockSize - 1
  {
    ViewFits(k, blockSize, q);
    PartialResult(dists[k * q .. k * q + k], ids[k * q .. k * q + k], q == blockSize - 1, base)
  }

  /** The push loop of the receive path: one view per query of the block, in query order. */
  method SplitBlock(ids: seq<int>, dists: seq<real>, k: nat, blockSize: nat, base: nat) returns (block: seq<PartialResult>)
    requires |ids| == k * blockSize && |dists| == k * blockSize
    ensures block == Views(ids, dists, k, blockSize, base, blockSize)
  {
    block := [];
    for q := 0 to blockSize
      invariant block == Views(ids, dists, k, blockSize, base, q)
    {
      block := block + [View(ids, dists, k, blockSize, q, base)];
    }
  }

  /** The first n views of a received block, in query order. */
  function Views(ids: seq<int>, dists: seq<real>, k: nat, blockSize: nat, base: nat, n: nat): (vs: seq<PartialResult>)
    requires n <= blockSize && |ids| == k * blockSize && |dists| == k * blockSize
    ensures |vs| == n
  {
    if n == 0 then [] else Views(ids, dists, k, blockSize, base, n - 1) + [View(ids, dists, k, blockSize, n - 1, base)]
  }

  lemma {:induction false} ViewsAt(ids: seq<int>, dists: seq<real>, k: nat, blockSize: nat, base: nat, n: nat, q: nat)
    requires q < n <= blockSize && |ids| == k * blockSize && |dists| == k * blockSize
    ensures Views(ids, dists, k, blockSize, base, n)[q] == View(ids, dists, k, blockSize, q, base)
  {
    if q < n - 1 {
      ViewsAt(ids, dists, k, blockSize, base, n - 1, q);
    }
  }

  /** Every block has exactly one owning view, its last one; all its views share the block's
      storage handle and consist of k ids and k distances. */
  lemma BlockHasOneOwner(ids: seq<int>, dists: seq<real>, k: nat, blockSize: nat, base: nat)
    requires blockSize >= 1 && |ids| == k * blockSize && |dists| == k * blockSize
    ensures var vs := Views(ids, dists, k, blockSize, base, blockSize);
      (forall q :: 0 <= q < blockSize ==>
        (vs[q].ownFields <==> q == blockSize - 1) && vs[q].base == base &&
        |vs[q].dists| == k && |vs[q].ids| == k) &&
      OwnerCount(vs) == 1
  {
    var vs := Views(ids, dists, k, blockSize, base, blockSize);
    forall q | 0 <= q < blockSize
      ensures (vs[q].ownFields <==> q == blockSize - 1) && vs[q].base == base
      ensures |vs[q].dists| == k && |vs[q].ids| == k
    {
      ViewsAt(ids, dists, k, blockSize, base, blockSize, q);
    }
    OwnerCountLast(vs);
  }

  /** Number of owning views in a sequence of views. */
  function OwnerCount(vs: seq<PartialResult>): nat {
    if vs == [] then 0 else OwnerCount(vs[..|vs| - 1]) + (if vs[|vs| - 1].ownFields then 1 else 0)
  }

  lemma {:induction false} OwnerCountNone(vs: seq<PartialResult>)
    requires forall q :: 0 <= q < |vs| ==> !vs[q].ownFields
    ensures OwnerCount(vs) == 0
  {
    if vs != [] {
      OwnerCountNone(vs[..|vs| - 1]);
    }
  }

  lemma OwnerCountLast(vs: seq<PartialResult>)
    requires vs != [] && forall q :: 0 <= q < |vs| ==> (vs[q].ownFields <==> q == |vs| - 1)
    ensures OwnerCount(vs) == 1
  {
    OwnerCountNone(vs[..|vs| - 1]);
  }

  /** Within one shard's queue, a view that does not own its block is followed by another
      view of the same block, handles never decrease, and an owning view is the last of its
      block. */
  ghost predicate BlockStructured(q: seq<PartialResult>) {
    (|q| > 0 ==> q[|q| - 1].ownFields) &&
    (forall i, j :: 0 <= i && j == i + 1 && j < |q| && !q[i].ownFields ==> q[j].base == q[i].base) &&
    (forall i, j :: 0 <= i < j < |q| ==> q[i].base <= q[j].base) &&
    (forall i, j :: 0 <= i < j < |q| && q[i].ownFields ==> q[i].base < q[j].base)
  }

  /** The blocks the views of a queue refer to. */
  ghost function Bases(q: seq<PartialResult>): set<nat> {
    if q == [] then {} else {q[0].base} + Bases(q[1..])
  }

  lemma {:induction false} BasesAppend(q: seq<PartialResult>, vs: seq<PartialResult>)
    ensures Bases(q + vs) == Bases(q) + Bases(vs)
  {
    if q == [] {
      assert q + vs == vs;
    } else {
      assert (q + vs)[1..] == q[1..] + vs;
      BasesAppend(q[1..], vs);
    }
  }

  /** Every queued view refers to an allocated, unreleased block of its own shard. */
  ghost predicate Placed(queue: seq<seq<PartialResult>>, blockShard: seq<nat>, released: seq<nat>, nextBlock: nat) {
    |blockShard| == nextBlock &&
    forall s, i :: 0 <= s < |queue| && 0 <= i < |queue[s]| ==>
      queue[s][i].base < nextBlock && blockShard[queue[s][i].base] == s && queue[s][i].base !in released
  }

  /** Only allocated blocks are released, and none twice. */
  ghost predicate ReleasedOnce(released: seq<nat>, nextBlock: nat) {
    Distinct(released) && forall i :: 0 <= i < |released| ==> released[i] < nextBlock
  }

  /** Every allocated block that is not released is still referred to by a view in its
      shard's queue. */
  ghost predicate NoLeak(queue: seq<seq<PartialResult>>, blockShard: seq<nat>, released: seq<nat>, nextBlock: nat) {
    |blockShard| == nextBlock &&
    (forall h :: 0 <= h < nextBlock ==> blockShard[h] < |queue|) &&
    forall h :: 0 <= h < nextBlock && h !in released ==> h in Bases(queue[blockShard[h]])
  }

  /** The storage discipline: blocks 0..nextBlock-1 have been allocated, block h for shard
      blockShard[h]; queues are block-structured; queued views refer to live blocks of their
      own shard; nothing is released twice; nothing leaks. */
  ghost predicate Ownership(queue: seq<seq<PartialResult>>, blockShard: seq<nat>, released: seq<nat>, nextBlock: nat) {
    (forall s :: 0 <= s < |queue| ==> BlockStructured(queue[s])) &&
    Placed(queue, blockShard, released, nextBlock) &&
    ReleasedOnce(released, nextBlock) &&
    NoLeak(queue, blockShard, released, nextBlock)
  }

  /** The front view of every shard queue. */
  function Fronts(queue: seq<seq<PartialResult>>): (rs: seq<PartialResult>)
    requires forall s :: 0 <= s < |queue| ==> |queue[s]| >= 1
    ensures |rs| == |queue| && forall s :: 0 <= s < |queue| ==> rs[s] == queue[s][0]
  {
    seq(|queue|, s requires 0 <= s < |queue| => queue[s][0])
  }

  /** Every shard queue without its front view. */
  function Tails(queue: seq<seq<PartialResult>>): (qs: seq<seq<PartialResult>>)
    requires forall s :: 0 <= s < |queue| ==> |queue[s]| >= 1
    ensures |qs| == |queue| && forall s :: 0 <= s < |queue| ==> qs[s] == queue[s][1..]
  {
    seq(|queue|, s requires 0 <= s < |queue| => queue[s][1..])
  }

  /** The storage handles released when the first n of the given views are consumed: the
      handle of each owning view, in shard order. */
  function Owned(rs: seq<PartialResult>, n: nat): seq<nat>
    requires n <= |rs|
  {
    if n == 0 then [] else Owned(rs, n - 1) + (if rs[n - 1].ownFields then [rs[n - 1].base] else [])
  }

  lemma {:induction false} OwnedMembers(rs: seq<PartialResult>, n: nat, h: nat)
    requires n <= |rs|
    ensures h in Owned(rs, n) <==> exists s :: 0 <= s < n && rs[s].ownFields && rs[s].base == h
  {
    if n > 0 {
      OwnedMembers(rs, n - 1, h);
    }
  }

  lemma {:induction false} OwnedDistinct(rs: seq<PartialResult>, n: nat)
    requires n <= |rs|
    requires forall s, t :: 0 <= s < t < |rs| && rs[s].ownFields && rs[t].ownFields ==> rs[s].base != rs[t].base
    ensures Distinct(Owned(rs, n))
  {
    if n > 0 {
      OwnedDistinct(rs, n - 1);
      if rs[n - 1].ownFields {
        var o := Owned(rs, n - 1);
        OwnedMembers(rs, n - 1, rs[n - 1].base);
        DistinctAppend(o, rs[n - 1].base);
      }
    }
  }

  /** No number occurs twice. */
  ghost predicate Distinct(xs: seq<nat>) {
    forall i, j :: 0 <= i < j < |xs| ==> xs[i] != xs[j]
  }

  lemma DistinctAppend(xs: seq<nat>, x: nat)
    requires Distinct(xs) && x !in xs
    ensures Distinct(xs + [x])
  {
    var ys := xs + [x];
    forall i, j | 0 <= i < j < |ys|
      ensures ys[i] != ys[j]
    {
      assert ys[i] == xs[i];
      if j < |xs| {
        assert ys[j] == xs[j];
      }
    }
  }

  /** Consuming the front view of every shard and releasing the owning ones keeps the
      storage discipline. */
  lemma PopPreservesOwnership(queue: seq<seq<PartialResult>>, blockShard: seq<nat>, released: seq<nat>, nextBlock: nat)
    requires Ownership(queue, blockShard, released, nextBlock)
    requires forall s :: 0 <= s < |queue| ==> |queue[s]| >= 1
    ensures Ownership(Tails(queue), blockShard, released + Owned(Fronts(queue), |queue|), nextBlock)
  {
    PopStructured(queue);
    PopPlaced(queue, blockShard, released, nextBlock);
    PopReleasedOnce(queue, blockShard, released, nextBlock);
    PopNoLeak(queue, blockShard, released, nextBlock);
  }

  lemma PopStructured(queue: seq<seq<PartialResult>>)
    requires forall s :: 0 <= s < |queue| ==> |queue[s]| >= 1 && BlockStructured(queue[s])
    ensures forall s :: 0 <= s < |queue| ==> BlockStructured(Tails(queue)[s])
  {
    var tl: seq<seq<PartialResult>> := Tails(queue);
    forall s | 0 <= s < |tl|
      ensures BlockStructured(tl[s])
    {
      assert BlockStructured(queue[s]);
      assert forall i :: 0 <= i < |tl[s]| ==> tl[s][i] == queue[s][i + 1];
    }
  }

  /** A released handle is the handle of an owning front view, which no later view of any
      queue shares. */
  lemma OwnedFrontsGone(queue: seq<seq<PartialResult>>, blockShard: seq<nat>, released: seq<nat>, nextBlock: nat, h: nat)
    requires forall s :: 0 <= s < |queue| ==> |queue[s]| >= 1 && BlockStructured(queue[s])
    requires Placed(queue, blockShard, released, nextBlock)
    requires h in Owned(Fronts(queue), |queue|)
    ensures h !in released && h < nextBlock
    ensures forall s, i :: 0 <= s < |queue| && 1 <= i < |queue[s]| ==> queue[s][i].base != h
  {
    OwnedMembers(Fronts(queue), |queue|, h);
    var t :| 0 <= t < |queue| && queue[t][0].ownFields && queue[t][0].base == h;
    assert BlockStructured(queue[t]);
  }

  lemma PopPlaced(queue: seq<seq<PartialResult>>, blockShard: seq<nat>, released: seq<nat>, nextBlock: nat)
    requires forall s :: 0 <= s < |queue| ==> |queue[s]| >= 1 && BlockStructured(queue[s])
    requires Placed(queue, blockShard, released, nextBlock)
    ensures Placed(Tails(queue), blockShard, released + Owned(Fronts(queue), |queue|), nextBlock)
  {
    var tl: seq<seq<PartialResult>> := Tails(queue);
    var o := Owned(Fronts(queue), |queue|);
    forall s, i | 0 <= s < |tl| && 0 <= i < |tl[s]|
      ensures tl[s][i].base < nextBlock && blockShard[tl[s][i].base] == s && tl[s][i].base !in released + o
    {
      assert tl[s][i] == queue[s][i + 1];
      if tl[s][i].base in o {
        OwnedFrontsGone(queue, blockShard, released, nextBlock, tl[s][i].base);
      }
    }
  }

  lemma PopReleasedOnce(queue: seq<seq<PartialResult>>, blockShard: seq<nat>, released: seq<nat>, nextBlock: nat)
    requires forall s :: 0 <= s < |queue| ==> |queue[s]| >= 1 && BlockStructured(queue[s])
    requires Placed(queue, blockShard, released, nextBlock) && ReleasedOnce(released, nextBlock)
    ensures ReleasedOnce(released + Owned(Fronts(queue), |queue|), nextBlock)
  {
    var fr: seq<PartialResult> := Fronts(queue);
    var o := Owned(fr, |queue|);
    var rel := released + o;
    forall s, t | 0 <= s < t < |fr| && fr[s].ownFields && fr[t].ownFields
      ensures fr[s].base != fr[t].base
    {
      assert blockShard[fr[s].base] == s && blockShard[fr[t].base] == t;
    }
    OwnedDistinct(fr, |queue|);
    forall i | 0 <= i < |rel|
      ensures rel[i] < nextBlock
      ensures i >= |released| ==> rel[i] !in released
    {
      if i >= |released| {
        assert rel[i] == o[i - |released|];
        OwnedFrontsGone(queue, blockShard, released, nextBlock, rel[i]);
      }
    }
    forall i, j | 0 <= i < j < |rel|
      ensures rel[i] != rel[j]
    {
      if j < |released| {
        assert rel[i] == released[i] && rel[j] == released[j];
      } else if i < |released| {
        assert rel[i] == released[i];
      } else {
        assert rel[i] == o[i - |released|] && rel[j] == o[j - |released|];
      }
    }
  }

  lemma PopNoLeak(queue: seq<seq<PartialResult>>, blockShard: seq<nat>, released: seq<nat>, nextBlock: nat)
    requires forall s :: 0 <= s < |queue| ==> |queue[s]| >= 1 && BlockStructured(queue[s])
    requires NoLeak(queue, blockShard, released, nextBlock)
    ensures NoLeak(Tails(queue), blockShard, released + Owned(Fronts(queue), |queue|), nextBlock)
  {
    var fr: seq<PartialResult> := Fronts(queue);
    var tl: seq<seq<PartialResult>> := Tails(queue);
    var rel := released + Owned(fr, |queue|);
    forall h | 0 <= h < nextBlock && h !in rel
      ensures h in Bases(tl[blockShard[h]])
    {
      var s := blockShard[h];
      assert Bases(queue[s]) == {queue[s][0].base} + Bases(tl[s]);
      if h == queue[s][0].base {
        // The front view of shard s refers to h but was not released, so it does not own
        // h and the next view of the queue refers to h too.
        OwnedMembers(fr, |queue|, h);
        assert !fr[s].ownFields;
        assert BlockStructured(queue[s]);
        assert tl[s][0] == queue[s][1];
        assert Bases(tl[s]) == {tl[s][0].base} + Bases(tl[s][1..]);
      }
    }
  }

  /** Appending a freshly allocated block's views to shard s keeps the storage discipline. */
  lemma PushPreservesOwnership(queue: seq<seq<PartialResult>>, blockShard: seq<nat>, released: seq<nat>, nextBlock: nat,
                               s: nat, vs: seq<PartialResult>)
    requires Ownership(queue, blockShard, released, nextBlock) && s < |queue|
    requires vs != [] && forall q :: 0 <= q < |vs| ==> (vs[q].ownFields <==> q == |vs| - 1) && vs[q].base == nextBlock
    ensures Ownership(queue[s := queue[s] + vs], blockShard + [s], released, nextBlock + 1)
  {
    var nq: seq<seq<PartialResult>> := queue[s := queue[s] + vs];
    AppendBlockStructured(queue[s], vs, nextBlock);
    assert forall t :: 0 <= t < |nq| ==> BlockStructured(nq[t]);
    PushPlaced(queue, blockShard, released, nextBlock, s, vs);
    PushNoLeak(queue, blockShard, released, nextBlock, s, vs);
  }

  lemma PushPlaced(queue: seq<seq<PartialResult>>, blockShard: seq<nat>, released: seq<nat>, nextBlock: nat,
                   s: nat, vs: seq<PartialResult>)
    requires Placed(queue, blockShard, released, nextBlock) && ReleasedOnce(released, nextBlock) && s < |queue|
    requires forall q :: 0 <= q < |vs| ==> vs[q].base == nextBlock
    ensures Placed(queue[s := queue[s] + vs], blockShard + [s], released, nextBlock + 1)
  {
    var nq: seq<seq<PartialResult>> := queue[s := queue[s] + vs];
    var nb: seq<nat> := blockShard + [s];
    var old_q := queue[s];
    forall t, i | 0 <= t < |nq| && 0 <= i < |nq[t]|
      ensures nq[t][i].base < nextBlock + 1 && nb[nq[t][i].base] == t && nq[t][i].base !in released
    {
      if t == s && i >= |old_q| {
        assert nq[t][i] == vs[i - |old_q|];
      } else {
        assert nq[t][i] == queue[t][i];
      }
    }
  }

  lemma PushNoLeak(queue: seq<seq<PartialResult>>, blockShard: seq<nat>, released: seq<nat>, nextBlock: nat,
                   s: nat, vs: seq<PartialResult>)
    requires NoLeak(queue, blockShard, released, nextBlock) && s < |queue|
    requires vs != [] && vs[0].base == nextBlock
    ensures NoLeak(queue[s := queue[s] + vs], blockShard + [s], released, nextBlock + 1)
  {
    var nq: seq<seq<PartialResult>> := queue[s := queue[s] + vs];
    var nb: seq<nat> := blockShard + [s];
    var old_q := queue[s];
    BasesAppend(old_q, vs);
    assert Bases(vs) == {vs[0].base} + Bases(vs[1..]);
    forall h | 0 <= h < nextBlock + 1 && h !in released
      ensures h in Bases(nq[nb[h]])
    {
      if h < nextBlock {
        BasesAppend(queue[nb[h]], if nb[h] == s then vs else []);
        assert queue[nb[h]] + [] == queue[nb[h]];
      }
    }
  }

  /** Appending the views of a block with a handle above every queued one keeps a queue
      block-structured. */
  lemma AppendBlockStructured(old_q: seq<PartialResult>, vs: seq<PartialResult>, base: nat)
    requires BlockStructured(old_q) && forall i :: 0 <= i < |old_q| ==> old_q[i].base < base
    requires vs != [] && forall q :: 0 <= q < |vs| ==> (vs[q].ownFields <==> q == |vs| - 1) && vs[q].base == base
    ensures BlockStructured(old_q + vs)
  {
    var new_q := old_q + vs;
    if old_q != [] {
      assert old_q[|old_q| - 1].ownFields;
    }
    forall i, j | 0 <= i < j < |new_q|
      ensures new_q[i].base <= new_q[j].base
      ensures new_q[i].ownFields ==> new_q[i].base < new_q[j].base
    {
      if j < |old_q| {
        assert new_q[i] == old_q[i] && new_q[j] == old_q[j];
      } else if i < |old_q| {
        assert new_q[i] == old_q[i] && new_q[j] == vs[j - |old_q|];
      } else {
        assert new_q[i] == vs[i - |old_q|] && new_q[j] == vs[j - |old_q|];
      }
    }
    forall i, j | 0 <= i && j == i + 1 && j < |new_q| && !new_q[i].ownFields
      ensures new_q[j].base == new_q[i].base
    {
      if j < |old_q| {
        assert new_q[i] == old_q[i] && new_q[j] == old_q[j];
      } else if i < |old_q| {
        assert false;
      } else {
        assert new_q[i] == vs[i - |old_q|] && new_q[j] == vs[j - |old_q|];
      }
    }
    assert new_q[|new_q| - 1] == vs[|vs| - 1];
  }

  /** With every queue empty, every allocated block has been released exactly once: as many
      releases as allocations. */
  lemma NoLeakWhenEmpty(queue: seq<seq<PartialResult>>, blockShard: seq<nat>, released: seq<nat>, nextBlock: nat)
    requires Ownership(queue, blockShard, released, nextBlock)
    requires forall s :: 0 <= s < |queue| ==> queue[s] == []
    ensures |released| == nextBlock
    ensures forall h :: 0 <= h < nextBlock ==> h in released
  {
    forall h | 0 <= h < nextBlock
      ensures h in released
    {
      assert Bases(queue[blockShard[h]]) == {};
    }
    DistinctRangeLength(released, nextBlock);
  }

  /** A duplicate-free sequence of numbers below n that contains each of them has length n. */
  lemma DistinctRangeLength(xs: seq<nat>, n: nat)
    requires Distinct(xs)
    requires forall i :: 0 <= i < |xs| ==> xs[i] < n
    requires forall h :: 0 <= h < n ==> h in xs
    ensures |xs| == n
  {
    RangeCard(n);
    DistinctCard(xs);
    assert Elements(xs) == Range(n);
  }

  /** The numbers in a sequence, as a set. */
  ghost function Elements(xs: seq<nat>): (e: set<nat>)
    ensures forall x :: x in e <==> x in xs
  {
    if xs == [] then {} else Elements(xs[..|xs| - 1]) + {xs[|xs| - 1]}
  }

  /** The numbers below n, as a set. */
  ghost function Range(n: nat): (r: set<nat>)
    ensures forall x :: x in r <==> 0 <= x < n
  {
    if n == 0 then {} else Range(n - 1) + {n - 1}
  }

  lemma {:induction false} DistinctCard(xs: seq<nat>)
    requires Distinct(xs)
    ensures |Elements(xs)| == |xs|
  {
    if xs != [] {
      var init := xs[..|xs| - 1];
      DistinctCard(init);
      assert xs[|xs| - 1] !in init;
    }
  }

  lemma {:induction false} RangeCard(n: nat)
    ensures |Range(n)| == n
  {
    if n > 0 {
      RangeCard(n - 1);
    }
  }
}
