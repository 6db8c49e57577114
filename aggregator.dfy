/** The aggregator process: one FIFO of partial results per shard, filled block by block
    as result messages arrive, and drained by merging one query at a time while every
    shard's queue holds at least one entry. The storage of a result block is released
    through the one view of the block that owns it. */
module Aggregation {
  import opened Arith
  import opened Merge
  import opened Blocks

  /** One result block from a shard: k ids and k distances for each of its queries. */
  datatype ResultMessage = ResultMessage(shard: nat, ids: seq<int>, dists: seq<real>)

  /** What the aggregator needs of a message: it comes from a known shard, carries k ids and
      k distances per query of the block, and every distance lies below the merge sentinel. */
  ghost predicate MessageFits(m: ResultMessage, nshards: nat, k: nat, blockSize: nat) {
    m.shard < nshards && |m.ids| == k * blockSize && |m.dists| == k * blockSize &&
    forall j :: 0 <= j < |m.dists| ==> m.dists[j] < FloatMax
  }

  /** The answer slot of query number qn, (qn mod capacity) * k, lies inside the answer
      array of capacity * k ids. */
  lemma SlotInRange(qn: nat, capacity: nat, k: nat)
    requires capacity >= 1
    ensures 0 <= (qn % capacity) * k && (qn % capacity) * k + k <= capacity * k
  {
    MulMono(k, qn % capacity + 1, capacity);
    assert (qn % capacity) * k + k == k * (qn % capacity + 1);
  }

  /** The first answer entry of query qn's slot. */
  function SlotBase(qn: nat, capacity: nat, k: nat): (b: nat)
    requires capacity >= 1
    ensures b == (qn % capacity) * k && b + k <= capacity * k
  {
    SlotInRange(qn, capacity, k);
    (qn % capacity) * k
  }

  /** Two of the last `capacity` queries never share an answer slot. */
  lemma SlotsDistinct(q: nat, r: nat, capacity: nat)
    requires capacity >= 1 && q < r < q + capacity
    ensures q % capacity != r % capacity
  {
    var d := r / capacity - q / capacity;
    if q % capacity == r % capacity {
      DivModDifference(q, r, capacity);
      assert r - q == capacity * d;
      if d >= 1 {
        MulMono(capacity, 1, d);
      } else {
        MulNonPositive(capacity, d);
      }
    }
  }

  lemma DivModDifference(q: nat, r: nat, c: nat)
    requires c >= 1 && q % c == r % c
    ensures r - q == c * (r / c - q / c)
  {
    assert q == c * (q / c) + q % c;
    assert r == c * (r / c) + r % c;
    assert c * (r / c) - c * (q / c) == c * (r / c - q / c);
  }

  lemma MulNonPositive(c: nat, d: int)
    requires d <= 0
    ensures c * d <= 0
  {
    assert c * d == -(c * -d);
  }


  /** Rewriting the k entries from y leaves the k entries from x as they were, when the two
      ranges do not overlap. */
  lemma RowKept(a: seq<int>, a': seq<int>, x: nat, y: nat, k: nat)
    requires x + k <= y || y + k <= x
    requires x + k <= |a| && |a'| == |a|
    requires forall i :: 0 <= i < |a| && !(y <= i < y + k) ==> a'[i] == a[i]
    ensures a'[x .. x + k] == a[x .. x + k]
  {
  }

  /** Distinct slots of k entries do not overlap. */
  lemma SlotsApart(s: nat, t: nat, k: nat)
    requires s != t
    ensures s * k + k <= t * k || t * k + k <= s * k
  {
    if s < t {
      MulMono(k, s + 1, t);
      assert s * k + k == k * (s + 1) && t * k == k * t;
    } else {
      MulMono(k, t + 1, s);
      assert t * k + k == k * (t + 1) && s * k == k * s;
    }
  }

  /** The answer entries with the k entries from offset replaced by row. */
  function WriteRow(a: seq<int>, offset: nat, row: seq<int>): (a': seq<int>)
    requires offset + |row| <= |a|
    ensures |a'| == |a| && a'[offset .. offset + |row|] == row
    ensures forall i :: 0 <= i < |a| && !(offset <= i < offset + |row|) ==> a'[i] == a[i]
  {
    a[..offset] + row + a[offset + |row|..]
  }

  /** The views at position q of every shard queue: the inputs merged for query q. */
  function Column(received: seq<seq<PartialResult>>, q: nat): (rs: seq<PartialResult>)
    requires forall s :: 0 <= s < |received| ==> q < |received[s]|
    ensures |rs| == |received| && forall s :: 0 <= s < |received| ==> rs[s] == received[s][q]
  {
    seq(|received|, s requires 0 <= s < |received| => received[s][q])
  }

  /** A view holds k ids and k distances below the sentinel. */
  ghost predicate ViewFit(v: PartialResult, k: nat) {
    |v.dists| == k && |v.ids| == k && forall j :: 0 <= j < k ==> v.dists[j] < FloatMax
  }

  ghost predicate ViewsFit(vs: seq<PartialResult>, k: nat) {
    forall q :: 0 <= q < |vs| ==> ViewFit(vs[q], k)
  }

  /** Every view of every shard's sequence fits. */
  ghost predicate EntriesFit(received: seq<seq<PartialResult>>, k: nat) {
    forall s :: 0 <= s < |received| ==> ViewsFit(received[s], k)
  }

  /** Each shard queue holds exactly the views of that shard not yet merged. */
  ghost predicate Synced(queue: seq<seq<PartialResult>>, received: seq<seq<PartialResult>>, qn: nat) {
    |queue| == |received| &&
    forall s :: 0 <= s < |received| ==> qn <= |received[s]| && queue[s] == received[s][qn..]
  }

  /** Each shard still owes the queries it has not delivered. */
  ghost predicate Owed(remaining: seq<int>, received: seq<seq<PartialResult>>, total: nat) {
    |remaining| == |received| &&
    forall s :: 0 <= s < |received| ==> remaining[s] == total - |received[s]|
  }

  lemma AppendKeepsSynced(queue: seq<seq<PartialResult>>, received: seq<seq<PartialResult>>, qn: nat,
                          s: nat, vs: seq<PartialResult>)
    requires Synced(queue, received, qn) && s < |received|
    ensures Synced(queue[s := queue[s] + vs], received[s := received[s] + vs], qn)
  {
    assert received[s][qn..] + vs == (received[s] + vs)[qn..];
  }

  lemma AppendKeepsOwed(remaining: seq<int>, received: seq<seq<PartialResult>>, total: nat,
                        s: nat, vs: seq<PartialResult>)
    requires Owed(remaining, received, total) && s < |received|
    ensures Owed(remaining[s := remaining[s] - |vs|], received[s := received[s] + vs], total)
  {
  }

  /** Every view of a block holds k ids and k distances, each distance one of the block's. */
  lemma BlockViewsFit(ids: seq<int>, dists: seq<real>, k: nat, blockSize: nat, base: nat)
    requires |ids| == k * blockSize && |dists| == k * blockSize
    requires forall j :: 0 <= j < |dists| ==> dists[j] < FloatMax
    ensures ViewsFit(Views(ids, dists, k, blockSize, base, blockSize), k)
  {
    var vs := Views(ids, dists, k, blockSize, base, blockSize);
    forall q | 0 <= q < |vs|
      ensures ViewFit(vs[q], k)
    {
      ViewsAt(ids, dists, k, blockSize, base, blockSize, q);
      ViewFits(k, blockSize, q);
      forall j | 0 <= j < k
        ensures vs[q].dists[j] < FloatMax
      {
        assert vs[q].dists[j] == dists[k * q + j];
      }
    }
  }

  /** Consuming the front of every queue moves the merge position one query on; the fronts
      are the views at that position. */
  lemma PopKeepsSynced(queue: seq<seq<PartialResult>>, received: seq<seq<PartialResult>>, qn: nat)
    requires Synced(queue, received, qn) && forall s :: 0 <= s < |queue| ==> |queue[s]| >= 1
    ensures forall s :: 0 <= s < |received| ==> qn < |received[s]|
    ensures Fronts(queue) == Column(received, qn)
    ensures Synced(Tails(queue), received, qn + 1)
  {
    forall s | 0 <= s < |received|
      ensures qn < |received[s]| && queue[s][0] == received[s][qn] && queue[s][1..] == received[s][qn + 1..]
    {
      assert queue[s] == received[s][qn..];
    }
  }

  /** The views at one position of every queue are admissible merge inputs. */
  lemma ColumnAdmissible(received: seq<seq<PartialResult>>, q: nat, k: nat)
    requires |received| >= 1 && EntriesFit(received, k)
    requires forall s :: 0 <= s < |received| ==> q < |received[s]|
    ensures Admissible(Column(received, q), k)
  {
  }


  lemma EntriesAppend(received: seq<seq<PartialResult>>, s: nat, vs: seq<PartialResult>, k: nat)
    requires s < |received| && EntriesFit(received, k)
    requires ViewsFit(vs, k)
    ensures EntriesFit(received[s := received[s] + vs], k)
  {
    var grown := received[s] + vs;
    assert ViewsFit(received[s], k);
    forall i | 0 <= i < |grown|
      ensures ViewFit(grown[i], k)
    {
      if i >= |received[s]| {
        assert grown[i] == vs[i - |received[s]|];
      } else {
        assert grown[i] == received[s][i];
      }
    }
  }


  /** aggregate_query: take the front view of every shard queue, merge them into the k
      answer entries from `offset`, and release the storage of every owning view. Returns
      the remaining queues, the merged views and the released storage handles. */
  method AggregateQuery(queue: seq<seq<PartialResult>>, answers: array<int>, offset: nat, k: nat)
      returns (rest: seq<seq<PartialResult>>, results: seq<PartialResult>, freed: seq<nat>)
    requires |queue| >= 1 && forall s :: 0 <= s < |queue| ==> |queue[s]| >= 1
    requires Admissible(Fronts(queue), k)
    requires offset + k <= answers.Length
    modifies answers
    ensures results == Fronts(queue) && rest == Tails(queue) && freed == Owned(results, |queue|)
    ensures answers[..] == WriteRow(old(answers[..]), offset, Rounds(results, k, k).answers)
  {
    var nshards := |queue|;
    results := [];
    rest := queue;
    for shard := 0 to nshards
      invariant |results| == shard && |rest| == nshards
      invariant forall s :: 0 <= s < shard ==> results[s] == queue[s][0] && rest[s] == queue[s][1..]
      invariant forall s :: shard <= s < nshards ==> rest[s] == queue[s]
    {
      results := results + [rest[shard][0]];
      rest := rest[shard := rest[shard][1..]];
    }
    ghost var before := answers[..];
    MergeResults(results, answers, offset, nshards, k);
    assert answers[..] == WriteRow(before, offset, Rounds(results, k, k).answers);
    freed := [];
    for shard := 0 to nshards
      invariant freed == Owned(results, shard)
    {
      if results[shard].ownFields {
        freed := freed + [results[shard].base];
      }
    }
  }
  /** Every shard queue holds at least one entry: the condition under which the drain loop
      merges another query. */
  predicate Ready(queue: seq<seq<PartialResult>>) {
    forall s :: 0 <= s < |queue| ==> |queue[s]| >= 1
  }

  /** The drain may merge exactly when no shard queue is empty. */
  lemma ReadyIffNoEmptyQueue(queue: seq<seq<PartialResult>>)
    ensures Ready(queue) <==> [] !in queue
  {
    if !Ready(queue) {
      var s :| 0 <= s < |queue| && |queue[s]| < 1;
      assert queue[s] == [];
    }
  }

  /** The variables of the aggregator loop: one queue per shard, the number of queries each
      shard still owes, queries_remaining, the number qn of queries merged so far, the number
      of result blocks received so far (block h is stored under handle h), the handles
      released so far in release order, and the answer array. */
  datatype AggState = AggState(queue: seq<seq<PartialResult>>, remaining: seq<int>, queriesRemaining: int,
                               qn: nat, nextBlock: nat, released: seq<nat>, answers: seq<int>)

  /** The shape every state keeps: one queue and one counter per shard, an answer array of
      total * k ids, at most total queries still to merge, and queued views that can be
      merged. */
  ghost predicate Shaped(st: AggState, nshards: nat, k: nat, total: nat) {
    nshards >= 1 && |st.queue| == nshards && |st.remaining| == nshards &&
    |st.answers| == total * k && st.queriesRemaining <= total && EntriesFit(st.queue, k)
  }

  /** The state when the receive loop starts: empty queues, every shard owing all `total`
      queries, nothing merged, allocated or released. */
  function Init(nshards: nat, total: nat, answers: seq<int>): (st: AggState)
    ensures |st.queue| == nshards && |st.remaining| == nshards
    ensures forall s :: 0 <= s < nshards ==> st.queue[s] == [] && st.remaining[s] == total
    ensures nshards >= 1 ==> !Ready(st.queue)
    ensures st.queriesRemaining == total && st.qn == 0 && st.nextBlock == 0 && st.released == [] && st.answers == answers
  {
    var st := AggState(seq(nshards, _ => []), seq(nshards, _ => total), total, 0, 0, [], answers);
    assert nshards >= 1 ==> st.queue[0] == [];
    st
  }

  /** The state after receiving message m: a new block of storage, blockSize fewer queries
      owed by the sending shard, and one view per query of the block appended to its queue,
      only the last one owning the storage. */
  function Enqueued(st: AggState, nshards: nat, k: nat, total: nat, blockSize: nat, m: ResultMessage): (r: AggState)
    requires Shaped(st, nshards, k, total) && MessageFits(m, nshards, k, blockSize)
    ensures Shaped(r, nshards, k, total)
  {
    var vs := Views(m.ids, m.dists, k, blockSize, st.nextBlock, blockSize);
    BlockViewsFit(m.ids, m.dists, k, blockSize, st.nextBlock);
    EntriesAppend(st.queue, m.shard, vs, k);
    st.(queue := st.queue[m.shard := st.queue[m.shard] + vs],
        remaining := st.remaining[m.shard := st.remaining[m.shard] - blockSize],
        nextBlock := st.nextBlock + 1)
  }

  /** The state after one merge of the drain loop: the front view of every queue is
      consumed, the storage of the owning ones released, the merged ids written to slot
      qn mod total, queries_remaining lowered and qn raised by one. */
  function MergedOnce(st: AggState, nshards: nat, k: nat, total: nat): (r: AggState)
    requires Shaped(st, nshards, k, total) && total >= 1 && Ready(st.queue)
    ensures Shaped(r, nshards, k, total)
  {
    var fronts := Fronts(st.queue);
    AggState(Tails(st.queue), st.remaining, st.queriesRemaining - 1, st.qn + 1, st.nextBlock,
             st.released + Owned(fronts, |fronts|),
             WriteRow(st.answers, SlotBase(st.qn, total, k), Rounds(fronts, k, k).answers))
  }

  /** The state after the gated drain: merge while every queue is non-empty. Every queue
      loses the same number of front views, one per merged query, and some queue ends
      empty. */
  function Drained(st: AggState, nshards: nat, k: nat, total: nat): (r: AggState)
    requires Shaped(st, nshards, k, total) && total >= 1
    ensures Shaped(r, nshards, k, total) && !Ready(r.queue)
    ensures st.qn <= r.qn && r.queriesRemaining == st.queriesRemaining - (r.qn - st.qn)
    ensures r.nextBlock == st.nextBlock && r.remaining == st.remaining
    ensures forall s :: 0 <= s < nshards ==> r.qn - st.qn <= |st.queue[s]| && r.queue[s] == st.queue[s][r.qn - st.qn..]
    decreases |st.queue[0]|
  {
    if !Ready(st.queue) then st
    else
      var next := MergedOnce(st, nshards, k, total);
      var r := Drained(next, nshards, k, total);
      assert forall s :: 0 <= s < nshards ==> r.queue[s] == st.queue[s][1..][r.qn - next.qn..];
      r
  }

  /** The state after the receive loop has taken the given messages in order: while queries
      remain, enqueue the next message's block and drain. Once no query remains, later
      messages are not taken. */
  function Served(st: AggState, nshards: nat, k: nat, total: nat, blockSize: nat, messages: seq<ResultMessage>): (r: AggState)
    requires Shaped(st, nshards, k, total)
    requires forall i :: 0 <= i < |messages| ==> MessageFits(messages[i], nshards, k, blockSize)
    ensures Shaped(r, nshards, k, total)
    ensures r.queriesRemaining <= st.queriesRemaining && r.nextBlock <= st.nextBlock + |messages|
    decreases |messages|
  {
    if messages == [] then st
    else
      var prev := Served(st, nshards, k, total, blockSize, messages[..|messages| - 1]);
      if prev.queriesRemaining < 1 then prev
      else Drained(Enqueued(prev, nshards, k, total, blockSize, messages[|messages| - 1]), nshards, k, total)
  }

  /** Once the receive loop stops taking messages, the remaining ones change nothing. */
  lemma {:induction false} ServedStops(st: AggState, nshards: nat, k: nat, total: nat, blockSize: nat,
                                       messages: seq<ResultMessage>, n: nat)
    requires Shaped(st, nshards, k, total)
    requires forall i :: 0 <= i < |messages| ==> MessageFits(messages[i], nshards, k, blockSize)
    requires n <= |messages|
    requires Served(st, nshards, k, total, blockSize, messages[..n]).queriesRemaining < 1
    ensures Served(st, nshards, k, total, blockSize, messages) == Served(st, nshards, k, total, blockSize, messages[..n])
    decreases |messages|
  {
    if n == |messages| {
      assert messages[..n] == messages;
    } else {
      var init := messages[..|messages| - 1];
      assert init[..n] == messages[..n];
      ServedStops(st, nshards, k, total, blockSize, init, n);
    }
  }

  /** The aggregator's state. */
  class Aggregator {
    const nshards: nat
    const numBlocks: nat
    const blockSize: nat
    const k: nat
    /** Merged ids, k per query, for numBlocks * blockSize queries. */
    const answers: array<int>

    /** One FIFO of partial results per shard. */
    var queue: seq<seq<PartialResult>>
    var remainingPerShard: seq<int>
    var queriesRemaining: int
    /** Queries merged so far. */
    var qn: nat
    /** Result blocks allocated so far; block h has storage handle h. */
    var nextBlock: nat
    /** Storage handles released, in release order. */
    var released: seq<nat>

    /** The number of queries of the run, which is also the number of answer slots. */
    function Total(): nat { numBlocks * blockSize }

    function State(): AggState
      reads this, answers
    {
      AggState(queue, remainingPerShard, queriesRemaining, qn, nextBlock, released, answers[..])
    }

    ghost predicate Valid()
      reads this, answers
    {
      Shaped(State(), nshards, k, Total())
    }

    /** Start of aggregator(): a fresh answer array and every shard owing all its queries. */
    constructor (nshards: nat, numBlocks: nat, blockSize: nat, k: nat)
      requires nshards >= 1
      ensures Valid() && fresh(answers)
      ensures this.nshards == nshards && this.numBlocks == numBlocks && this.blockSize == blockSize && this.k == k
      ensures State() == Init(nshards, numBlocks * blockSize, answers[..])
    {
      this.nshards, this.numBlocks, this.blockSize, this.k := nshards, numBlocks, blockSize, k;
      answers := new int[numBlocks * blockSize * k];
      queriesRemaining := numBlocks * blockSize;
      qn := 0;
      remainingPerShard := seq(nshards, _ => numBlocks * blockSize);
      queue := seq(nshards, _ => []);
      nextBlock := 0;
      released := [];
    }

    /** One received block: its shard owes blockSize fewer queries and gets one view per
        query of the block appended to its queue. */
    method Receive(m: ResultMessage)
      requires Valid() && MessageFits(m, nshards, k, blockSize)
      modifies this
      ensures State() == Enqueued(old(State()), nshards, k, Total(), blockSize, m) && Valid()
    {
      var block := SplitBlock(m.ids, m.dists, k, blockSize, nextBlock);
      nextBlock := nextBlock + 1;
      var shard := m.shard;
      remainingPerShard := remainingPerShard[shard := remainingPerShard[shard] - blockSize];
      queue := queue[shard := queue[shard] + block];
    }

    /** One merge of the drain loop: aggregate_query into slot qn mod total, then
        queries_remaining-- and qn++. */
    method MergeNext()
      requires Valid() && Total() >= 1 && Ready(queue)
      modifies this, answers
      ensures State() == MergedOnce(old(State()), nshards, k, Total()) && Valid()
    {
      FrontsAdmissible(queue, k);
      var rest, results, freed := AggregateQuery(queue, answers, SlotBase(qn, Total(), k), k);
      queue := rest;
      released := released + freed;
      queriesRemaining := queriesRemaining - 1;
      qn := qn + 1;
    }

    /** The scan at the top of the drain loop: is some shard queue empty? */
    method HasEmpty() returns (hasEmpty: bool)
      requires |queue| == nshards
      ensures hasEmpty <==> !Ready(queue)
    {
      hasEmpty := false;
      for i := 0 to nshards
        invariant forall s :: 0 <= s < i ==> |queue[s]| >= 1
      {
        if |queue[i]| == 0 {
          hasEmpty := true;
          break;
        }
      }
    }

    /** The gated drain: look for an empty shard queue; merge the next query while there is
        none. */
    method Drain()
      requires Valid() && Total() >= 1
      modifies this, answers
      ensures State() == Drained(old(State()), nshards, k, Total()) && Valid()
    {
      while true
        invariant Valid() && Drained(State(), nshards, k, Total()) == Drained(old(State()), nshards, k, Total())
        decreases |queue[0]|
      {
        var hasEmpty := HasEmpty();
        if hasEmpty {
          break;
        }
        MergeNext();
      }
    }

    /** The receive loop of aggregator(): while queries remain, take the next message,
        enqueue its block and drain. Stops when no query remains or the messages run out. */
    method Run(messages: seq<ResultMessage>) returns (consumed: nat)
      requires Valid()
      requires forall i :: 0 <= i < |messages| ==> MessageFits(messages[i], nshards, k, blockSize)
      modifies this, answers
      ensures Valid() && consumed <= |messages|
      ensures consumed == |messages| || queriesRemaining < 1
      ensures State() == Served(old(State()), nshards, k, Total(), blockSize, messages)
    {
      consumed := 0;
      while queriesRemaining >= 1 && consumed < |messages|
        invariant Valid() && consumed <= |messages|
        invariant State() == Served(old(State()), nshards, k, Total(), blockSize, messages[..consumed])
      {
        assert messages[..consumed + 1][..consumed] == messages[..consumed];
        Receive(messages[consumed]);
        Drain();
        consumed := consumed + 1;
      }
      if consumed < |messages| {
        ServedStops(old(State()), nshards, k, Total(), blockSize, messages, consumed);
      } else {
        assert messages[..consumed] == messages;
      }
    }
  }

  /** The fronts of non-empty queues of mergeable views can be merged. */
  lemma FrontsAdmissible(queue: seq<seq<PartialResult>>, k: nat)
    requires |queue| >= 1 && Ready(queue) && EntriesFit(queue, k)
    ensures Admissible(Fronts(queue), k)
  {
  }

  /** What the aggregator has received so far, which its variables do not keep: every view
      each shard has delivered, in order, and the shard each allocated block came from. */
  datatype History = History(received: seq<seq<PartialResult>>, blockShard: seq<nat>)

  /** The history after enqueueing message m into state st. */
  ghost function Recorded(h: History, st: AggState, k: nat, blockSize: nat, m: ResultMessage): History
    requires m.shard < |h.received| && |m.ids| == k * blockSize && |m.dists| == k * blockSize
  {
    var vs := Views(m.ids, m.dists, k, blockSize, st.nextBlock, blockSize);
    History(h.received[m.shard := h.received[m.shard] + vs], h.blockShard + [m.shard])
  }

  /** The history after the receive loop has taken the given messages, as in Served. */
  ghost function ServedHistory(st: AggState, h: History, nshards: nat, k: nat, total: nat, blockSize: nat,
                               messages: seq<ResultMessage>): (h': History)
    requires Shaped(st, nshards, k, total) && |h.received| == nshards
    requires forall i :: 0 <= i < |messages| ==> MessageFits(messages[i], nshards, k, blockSize)
    ensures |h'.received| == nshards
    decreases |messages|
  {
    if messages == [] then h
    else
      var init := messages[..|messages| - 1];
      var prev := Served(st, nshards, k, total, blockSize, init);
      var prevH := ServedHistory(st, h, nshards, k, total, blockSize, init);
      if prev.queriesRemaining < 1 then prevH
      else
        assert MessageFits(messages[|messages| - 1], nshards, k, blockSize);
        Recorded(prevH, prev, k, blockSize, messages[|messages| - 1])
  }

  /** The answer array holds the merged ids of the last `capacity` queries merged so far:
      query q's row, the merge of the q-th view of every shard, at slot q mod capacity. */
  ghost predicate AnswersHold(a: seq<int>, received: seq<seq<PartialResult>>, qn: nat, capacity: nat, k: nat)
    requires EntriesFit(received, k) && forall s :: 0 <= s < |received| ==> qn <= |received[s]|
  {
    |a| == capacity * k &&
    forall q :: 0 <= q < qn && qn <= q + capacity ==>
      a[SlotBase(q, capacity, k) .. SlotBase(q, capacity, k) + k] == Rounds(Column(received, q), k, k).answers
  }

  /** Writing the merge of the next query into its slot keeps the last `capacity` rows in
      place. */
  lemma AnswersAdvance(a: seq<int>, received: seq<seq<PartialResult>>, qn: nat, capacity: nat, k: nat)
    requires capacity >= 1 && EntriesFit(received, k) && forall s :: 0 <= s < |received| ==> qn < |received[s]|
    requires AnswersHold(a, received, qn, capacity, k)
    ensures AnswersHold(WriteRow(a, SlotBase(qn, capacity, k), Rounds(Column(received, qn), k, k).answers),
                        received, qn + 1, capacity, k)
  {
    var row := Rounds(Column(received, qn), k, k).answers;
    var a' := WriteRow(a, SlotBase(qn, capacity, k), row);
    forall q | 0 <= q < qn + 1 && qn + 1 <= q + capacity
      ensures a'[SlotBase(q, capacity, k) .. SlotBase(q, capacity, k) + k] == Rounds(Column(received, q), k, k).answers
    {
      if q < qn {
        OtherSlotKept(a, row, q, qn, capacity, k);
      }
    }
  }

  /** Writing query r's row leaves the slot of an earlier query q among the last `capacity`
      as it was. */
  lemma OtherSlotKept(a: seq<int>, row: seq<int>, q: nat, r: nat, capacity: nat, k: nat)
    requires capacity >= 1 && q < r < q + capacity && |a| == capacity * k && |row| == k
    ensures var a' := WriteRow(a, SlotBase(r, capacity, k), row);
      a'[SlotBase(q, capacity, k) .. SlotBase(q, capacity, k) + k] == a[SlotBase(q, capacity, k) .. SlotBase(q, capacity, k) + k]
  {
    SlotsDistinct(q, r, capacity);
    SlotsApart(q % capacity, r % capacity, k);
    RowKept(a, WriteRow(a, SlotBase(r, capacity, k), row), SlotBase(q, capacity, k), SlotBase(r, capacity, k), k);
  }

  /** Appending views to one shard does not change the merge inputs of earlier queries. */
  lemma AnswersAppend(a: seq<int>, received: seq<seq<PartialResult>>, qn: nat, capacity: nat, k: nat,
                      s: nat, vs: seq<PartialResult>)
    requires s < |received| && EntriesFit(received, k) && forall t :: 0 <= t < |received| ==> qn <= |received[t]|
    requires AnswersHold(a, received, qn, capacity, k)
    requires EntriesFit(received[s := received[s] + vs], k)
    ensures AnswersHold(a, received[s := received[s] + vs], qn, capacity, k)
  {
    var r': seq<seq<PartialResult>> := received[s := received[s] + vs];
    forall q | 0 <= q < qn && qn <= q + capacity
      ensures Column(r', q) == Column(received, q)
    {
    }
  }

  /** The aggregator's invariant over its state and what it has received: the queues hold
      exactly the views not yet merged, every received view can be merged, queries_remaining
      counts the queries not yet merged, every shard owes the queries it has not delivered,
      storage is owned as Ownership describes, and the last `total` merged rows sit in their
      answer slots. */
  ghost predicate Inv(st: AggState, h: History, nshards: nat, k: nat, total: nat) {
    Shaped(st, nshards, k, total) && |h.received| == nshards &&
    Synced(st.queue, h.received, st.qn) &&
    EntriesFit(h.received, k) &&
    st.queriesRemaining == total - st.qn &&
    Owed(st.remaining, h.received, total) &&
    Ownership(st.queue, h.blockShard, st.released, st.nextBlock) &&
    (st.qn > 0 ==> total >= 1) &&
    AnswersHold(st.answers, h.received, st.qn, total, k)
  }

  /** qn is the least number of views any shard has delivered. */
  ghost predicate Gated(qn: nat, received: seq<seq<PartialResult>>) {
    (forall s :: 0 <= s < |received| ==> qn <= |received[s]|) &&
    exists s :: 0 <= s < |received| && |received[s]| == qn
  }

  /** The invariant holds when the receive loop starts, whatever the answer array holds. */
  lemma InitInv(nshards: nat, k: nat, total: nat, answers: seq<int>)
    requires nshards >= 1 && |answers| == total * k
    ensures Inv(Init(nshards, total, answers), History(seq(nshards, _ => []), []), nshards, k, total)
  {
    var st := Init(nshards, total, answers);
    var h := History(seq(nshards, _ => []), []);
    assert forall s :: 0 <= s < nshards ==> st.queue[s] == [] && h.received[s] == [];
    assert forall s :: 0 <= s < nshards ==> Bases(st.queue[s]) == {};
  }

  /** Enqueueing a received block keeps the invariant: the block's views join the queue and
      the history of its shard, which owes blockSize fewer queries. */
  lemma EnqueuedKeepsInv(st: AggState, h: History, nshards: nat, k: nat, total: nat, blockSize: nat, m: ResultMessage)
    requires Inv(st, h, nshards, k, total)
    requires MessageFits(m, nshards, k, blockSize) && blockSize >= 1
    ensures Inv(Enqueued(st, nshards, k, total, blockSize, m), Recorded(h, st, k, blockSize, m), nshards, k, total)
  {
    var vs := Views(m.ids, m.dists, k, blockSize, st.nextBlock, blockSize);
    var st', h' := Enqueued(st, nshards, k, total, blockSize, m), Recorded(h, st, k, blockSize, m);
    assert st'.queue == st.queue[m.shard := st.queue[m.shard] + vs];
    assert h'.received == h.received[m.shard := h.received[m.shard] + vs];
    assert Ownership(st'.queue, h'.blockShard, st'.released, st'.nextBlock) by {
      BlockHasOneOwner(m.ids, m.dists, k, blockSize, st.nextBlock);
      PushPreservesOwnership(st.queue, h.blockShard, st.released, st.nextBlock, m.shard, vs);
    }
    assert Synced(st'.queue, h'.received, st'.qn) by {
      AppendKeepsSynced(st.queue, h.received, st.qn, m.shard, vs);
    }
    assert Owed(st'.remaining, h'.received, total) by {
      AppendKeepsOwed(st.remaining, h.received, total, m.shard, vs);
    }
    assert EntriesFit(h'.received, k) && AnswersHold(st'.answers, h'.received, st'.qn, total, k) by {
      BlockViewsFit(m.ids, m.dists, k, blockSize, st.nextBlock);
      EntriesAppend(h.received, m.shard, vs, k);
      AnswersAppend(st.answers, h.received, st.qn, total, k, m.shard, vs);
    }
  }

  /** One merge keeps the invariant: the fronts, which are the qn-th view of every shard,
      leave the queues, their owned storage is released, and their merge lands in slot
      qn mod total. */
  lemma MergedOnceKeepsInv(st: AggState, h: History, nshards: nat, k: nat, total: nat)
    requires Inv(st, h, nshards, k, total) && total >= 1 && Ready(st.queue)
    ensures Fronts(st.queue) == Column(h.received, st.qn)
    ensures Inv(MergedOnce(st, nshards, k, total), h, nshards, k, total)
  {
    PopKeepsSynced(st.queue, h.received, st.qn);
    PopPreservesOwnership(st.queue, h.blockShard, st.released, st.nextBlock);
    AnswersAdvance(st.answers, h.received, st.qn, total, k);
  }

  /** The gated drain keeps the storage discipline. */
  lemma {:induction false} DrainedKeepsOwnership(st: AggState, nshards: nat, k: nat, total: nat, blockShard: seq<nat>)
    requires Shaped(st, nshards, k, total) && total >= 1
    requires Ownership(st.queue, blockShard, st.released, st.nextBlock)
    ensures var r := Drained(st, nshards, k, total); Ownership(r.queue, blockShard, r.released, r.nextBlock)
    decreases |st.queue[0]|
  {
    if Ready(st.queue) {
      PopPreservesOwnership(st.queue, blockShard, st.released, st.nextBlock);
      DrainedKeepsOwnership(MergedOnce(st, nshards, k, total), nshards, k, total, blockShard);
    }
  }

  /** The gated drain keeps the last `total` merged rows in their answer slots. */
  lemma {:induction false} DrainedKeepsAnswers(st: AggState, received: seq<seq<PartialResult>>, nshards: nat, k: nat, total: nat)
    requires Shaped(st, nshards, k, total) && total >= 1 && |received| == nshards && EntriesFit(received, k)
    requires Synced(st.queue, received, st.qn) && AnswersHold(st.answers, received, st.qn, total, k)
    ensures var r := Drained(st, nshards, k, total);
      Synced(r.queue, received, r.qn) && AnswersHold(r.answers, received, r.qn, total, k)
    decreases |st.queue[0]|
  {
    if Ready(st.queue) {
      PopKeepsSynced(st.queue, received, st.qn);
      AnswersAdvance(st.answers, received, st.qn, total, k);
      DrainedKeepsAnswers(MergedOnce(st, nshards, k, total), received, nshards, k, total);
    }
  }

  /** Once some queue is empty, qn is the least number of views any shard has delivered. */
  lemma SyncedStopGated(queue: seq<seq<PartialResult>>, received: seq<seq<PartialResult>>, qn: nat)
    requires Synced(queue, received, qn) && !Ready(queue)
    ensures Gated(qn, received)
  {
    var s :| 0 <= s < |queue| && |queue[s]| == 0;
    assert queue[s] == received[s][qn..];
  }

  /** The gated drain keeps the invariant and stops exactly when qn has reached the least
      number of views any shard has delivered. */
  lemma DrainedKeepsInv(st: AggState, h: History, nshards: nat, k: nat, total: nat)
    requires Inv(st, h, nshards, k, total) && total >= 1
    ensures Inv(Drained(st, nshards, k, total), h, nshards, k, total)
    ensures Gated(Drained(st, nshards, k, total).qn, h.received)
  {
    var r := Drained(st, nshards, k, total);
    assert Ownership(r.queue, h.blockShard, r.released, r.nextBlock) by {
      DrainedKeepsOwnership(st, nshards, k, total, h.blockShard);
    }
    assert Synced(r.queue, h.received, r.qn) && AnswersHold(r.answers, h.received, r.qn, total, k) by {
      DrainedKeepsAnswers(st, h.received, nshards, k, total);
    }
    SyncedStopGated(r.queue, h.received, r.qn);
  }

  /** The receive loop keeps the invariant; once it has taken a message, qn is the least
      number of views any shard has delivered. */
  lemma {:induction false} ServedKeepsInv(st: AggState, h: History, nshards: nat, k: nat, total: nat, blockSize: nat,
                                          messages: seq<ResultMessage>)
    requires Inv(st, h, nshards, k, total) && blockSize >= 1
    requires forall i :: 0 <= i < |messages| ==> MessageFits(messages[i], nshards, k, blockSize)
    ensures Inv(Served(st, nshards, k, total, blockSize, messages),
                ServedHistory(st, h, nshards, k, total, blockSize, messages), nshards, k, total)
    ensures |messages| >= 1 && st.queriesRemaining >= 1 ==>
      Gated(Served(st, nshards, k, total, blockSize, messages).qn,
            ServedHistory(st, h, nshards, k, total, blockSize, messages).received)
    decreases |messages|
  {
    if messages != [] {
      var init := messages[..|messages| - 1];
      ServedKeepsInv(st, h, nshards, k, total, blockSize, init);
      var prev := Served(st, nshards, k, total, blockSize, init);
      var prevH := ServedHistory(st, h, nshards, k, total, blockSize, init);
      if prev.queriesRemaining >= 1 {
        var m := messages[|messages| - 1];
        EnqueuedKeepsInv(prev, prevH, nshards, k, total, blockSize, m);
        DrainedKeepsInv(Enqueued(prev, nshards, k, total, blockSize, m), Recorded(prevH, prev, k, blockSize, m), nshards, k, total);
      }
    }
  }

  /** Once all `total` queries are merged, the answer array holds, at entries [q*k, q*k+k),
      the merge of the q-th view of every shard, for every query q. */
  lemma AnswersComplete(a: seq<int>, received: seq<seq<PartialResult>>, total: nat, k: nat, q: nat)
    requires EntriesFit(received, k) && forall s :: 0 <= s < |received| ==> total <= |received[s]|
    requires AnswersHold(a, received, total, total, k) && q < total
    ensures q * k + k <= |a|
    ensures a[q * k .. q * k + k] == Rounds(Column(received, q), k, k).answers
  {
    ModOfSmaller(q, total);
    assert SlotBase(q, total, k) == q * k;
  }

  /** Once every queue is empty, every allocated block has been released, exactly once. */
  lemma ReleasedWhenEmpty(st: AggState, h: History, nshards: nat, k: nat, total: nat)
    requires Inv(st, h, nshards, k, total) && forall s :: 0 <= s < nshards ==> st.queue[s] == []
    ensures |st.released| == st.nextBlock && forall b :: 0 <= b < st.nextBlock ==> b in st.released
  {
    NoLeakWhenEmpty(st.queue, h.blockShard, st.released, st.nextBlock);
  }
}
