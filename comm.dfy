/** The communication threads of a search shard. Each one receives query blocks from the
    generator, hands them to the search threads through query buffers, and sends the finished
    label and distance blocks to the aggregator, each tagged with a block id. Buffers are FIFO
    sequences. A query block is named by its position in the broadcast stream, and a result
    block by the query block it answers. The MPI calls are the points where a message is
    appended to the sent log or a block number is taken from the stream. */
module Comm {
  import opened Arith
  import opened Hybrid
  import Blocks

  /** One message to the aggregator: the block id, then the label block, then the distance
      block. */
  datatype Sent = Sent(id: nat, labels: nat, dists: nat)

  function Ids(sent: seq<Sent>): (s: seq<nat>)
    ensures |s| == |sent| && forall j :: 0 <= j < |s| ==> s[j] == sent[j].id
  {
    seq(|sent|, j requires 0 <= j < |sent| => sent[j].id)
  }

  /** The numbers 0 .. n-1 in order. */
  function Upto(n: nat): (s: seq<nat>)
    ensures |s| == n && forall j :: 0 <= j < n ==> s[j] == j
  {
    seq(n, j => j)
  }

  // ---------------------------------------------------------------------------------------
  // comm_handler: one set of result buffers, ids taken from the running send counter.
  // ---------------------------------------------------------------------------------------

  /** The result blocks the search side appended to the label and distance buffers before
      one pass of the loop. */
  datatype Results = Results(labels: seq<nat>, dists: seq<nat>)

  function AllLabels(rs: seq<Results>): seq<nat> {
    if rs == [] then [] else AllLabels(rs[..|rs| - 1]) + rs[|rs| - 1].labels
  }

  function AllDists(rs: seq<Results>): seq<nat> {
    if rs == [] then [] else AllDists(rs[..|rs| - 1]) + rs[|rs| - 1].dists
  }

  function LabelsOf(sent: seq<Sent>): (s: seq<nat>)
    ensures |s| == |sent| && forall j :: 0 <= j < |s| ==> s[j] == sent[j].labels
  {
    seq(|sent|, j requires 0 <= j < |sent| => sent[j].labels)
  }

  function DistsOf(sent: seq<Sent>): (s: seq<nat>)
    ensures |s| == |sent| && forall j :: 0 <= j < |s| ==> s[j] == sent[j].dists
  {
    seq(|sent|, j requires 0 <= j < |sent| => sent[j].dists)
  }

  /** The send burst of comm_handler: as many messages as both result buffers have blocks,
      the i-th tagged with the counter's value plus i and carrying the front label and
      distance blocks, one of each removed per message. */
  method SendNumbered(labels: seq<nat>, dists: seq<nat>, blocksSent: nat)
    returns (labels': seq<nat>, dists': seq<nat>, blocksSent': nat, out: seq<Sent>)
    ensures |out| == Min(|labels|, |dists|) && blocksSent' == blocksSent + |out|
    ensures labels' == labels[|out|..] && dists' == dists[|out|..]
    ensures forall j :: 0 <= j < |out| ==> out[j] == Sent(blocksSent + j, labels[j], dists[j])
  {
    var ready := Min(|dists|, |labels|);
    labels', dists', blocksSent', out := labels, dists, blocksSent, [];
    for i := 0 to ready
      invariant |out| == i && blocksSent' == blocksSent + i
      invariant labels' == labels[i..] && dists' == dists[i..]
      invariant forall j :: 0 <= j < i ==> out[j] == Sent(blocksSent + j, labels[j], dists[j])
    {
      out := out + [Sent(blocksSent', labels'[0], dists'[0])];
      blocksSent' := blocksSent' + 1;
      labels' := labels'[1..];
      dists' := dists'[1..];
    }
  }

  /** The receive step of comm_handler: the block goes to the end of every registered query
      buffer. */
  method Broadcast(buffers: seq<seq<nat>>, block: nat) returns (buffers': seq<seq<nat>>)
    ensures |buffers'| == |buffers|
    ensures forall b :: 0 <= b < |buffers| ==> buffers'[b] == buffers[b] + [block]
  {
    buffers' := buffers;
    for b := 0 to |buffers|
      invariant |buffers'| == |buffers|
      invariant forall c :: 0 <= c < b ==> buffers'[c] == buffers[c] + [block]
      invariant forall c :: b <= c < |buffers| ==> buffers'[c] == buffers[c]
    {
      buffers' := buffers'[b := buffers'[b] + [block]];
    }
  }

  /** What comm_handler keeps true between passes: it has received at most numBlocks
      blocks and put each into every query buffer in order; its messages carry the ids
      0, 1, 2, ... and, in that order, every label block and distance block the search
      side has produced and the buffers no longer hold. */
  ghost predicate Counting(numBlocks: nat, initial: seq<seq<nat>>, arrived: seq<Results>,
                           sent: seq<Sent>, blocksSent: nat, blocksReceived: nat,
                           labels: seq<nat>, dists: seq<nat>, buffers: seq<seq<nat>>) {
    && blocksReceived <= numBlocks
    && blocksSent == |sent|
    && (forall j :: 0 <= j < |sent| ==> sent[j].id == j)
    && LabelsOf(sent) + labels == AllLabels(arrived)
    && DistsOf(sent) + dists == AllDists(arrived)
    && |buffers| == |initial|
    && (forall b :: 0 <= b < |buffers| ==> buffers[b] == initial[b] + Upto(blocksReceived))
  }

  /** comm_handler's loop (search.cpp:36-64), one pass per element of arrivals: first the
      search side's output for that pass lands in the result buffers, then the handler sends
      what both buffers hold (while fewer than numBlocks have been sent), then it receives one
      more query block (while fewer than numBlocks have been received). It stops when both
      counters have reached numBlocks, or when arrivals run out. */
  method CommHandler(numBlocks: nat, initial: seq<seq<nat>>, arrivals: seq<Results>)
    returns (sent: seq<Sent>, blocksSent: nat, blocksReceived: nat, labels: seq<nat>,
             dists: seq<nat>, buffers: seq<seq<nat>>, passes: nat)
    ensures passes <= |arrivals|
    ensures Counting(numBlocks, initial, arrivals[..passes], sent, blocksSent, blocksReceived, labels, dists, buffers)
    ensures passes == |arrivals| || (blocksSent >= numBlocks && blocksReceived == numBlocks)
  {
    sent, blocksSent, blocksReceived, labels, dists, buffers, passes := [], 0, 0, [], [], initial, 0;
    assert forall b :: 0 <= b < |buffers| ==> buffers[b] == initial[b] + Upto(0);
    while (blocksSent < numBlocks || blocksReceived < numBlocks) && passes < |arrivals|
      invariant passes <= |arrivals|
      invariant Counting(numBlocks, initial, arrivals[..passes], sent, blocksSent, blocksReceived, labels, dists, buffers)
      decreases |arrivals| - passes
    {
      ArrivalKeepsCounting(numBlocks, initial, arrivals, passes, sent, blocksSent, blocksReceived, labels, dists, buffers);
      labels := labels + arrivals[passes].labels;
      dists := dists + arrivals[passes].dists;
      passes := passes + 1;
      if blocksSent < numBlocks && |dists| >= 1 && |labels| >= 1 {
        var out, before, lbl, dst, count := [], sent, labels, dists, blocksSent;
        labels, dists, blocksSent, out := SendNumbered(labels, dists, blocksSent);
        sent := sent + out;
        SendKeepsCounting(numBlocks, initial, arrivals[..passes], before, out, count, blocksReceived, lbl, dst, buffers);
      }
      if blocksReceived < numBlocks {
        var before := buffers;
        buffers := Broadcast(buffers, blocksReceived);
        ReceiveKeepsCounting(numBlocks, initial, arrivals[..passes], sent, blocksSent, blocksReceived, labels, dists, before, buffers);
        blocksReceived := blocksReceived + 1;
      }
    }
  }

  /** The search side appending result blocks keeps the handler's bookkeeping. */
  lemma ArrivalKeepsCounting(numBlocks: nat, initial: seq<seq<nat>>, arrivals: seq<Results>, n: nat,
                             sent: seq<Sent>, blocksSent: nat, blocksReceived: nat,
                             labels: seq<nat>, dists: seq<nat>, buffers: seq<seq<nat>>)
    requires n < |arrivals|
    requires Counting(numBlocks, initial, arrivals[..n], sent, blocksSent, blocksReceived, labels, dists, buffers)
    ensures Counting(numBlocks, initial, arrivals[..n + 1], sent, blocksSent, blocksReceived,
                     labels + arrivals[n].labels, dists + arrivals[n].dists, buffers)
  {
    assert arrivals[..n + 1][..n] == arrivals[..n];
    assert LabelsOf(sent) + (labels + arrivals[n].labels) == (LabelsOf(sent) + labels) + arrivals[n].labels;
    assert DistsOf(sent) + (dists + arrivals[n].dists) == (DistsOf(sent) + dists) + arrivals[n].dists;
  }

  /** A send burst that tags its messages with the next counter values and takes the fronts
      of both buffers keeps the bookkeeping. */
  lemma SendKeepsCounting(numBlocks: nat, initial: seq<seq<nat>>, arrived: seq<Results>,
                          sent: seq<Sent>, out: seq<Sent>, blocksSent: nat, blocksReceived: nat,
                          labels: seq<nat>, dists: seq<nat>, buffers: seq<seq<nat>>)
    requires Counting(numBlocks, initial, arrived, sent, blocksSent, blocksReceived, labels, dists, buffers)
    requires |out| <= |labels| && |out| <= |dists|
    requires forall j :: 0 <= j < |out| ==> out[j] == Sent(blocksSent + j, labels[j], dists[j])
    ensures Counting(numBlocks, initial, arrived, sent + out, blocksSent + |out|, blocksReceived,
                     labels[|out|..], dists[|out|..], buffers)
  {
    assert LabelsOf(sent + out) + labels[|out|..] == LabelsOf(sent) + labels;
    assert DistsOf(sent + out) + dists[|out|..] == DistsOf(sent) + dists;
  }

  /** Receiving the next block into every query buffer keeps the bookkeeping. */
  lemma ReceiveKeepsCounting(numBlocks: nat, initial: seq<seq<nat>>, arrived: seq<Results>,
                             sent: seq<Sent>, blocksSent: nat, blocksReceived: nat,
                             labels: seq<nat>, dists: seq<nat>, buffers: seq<seq<nat>>, buffers': seq<seq<nat>>)
    requires Counting(numBlocks, initial, arrived, sent, blocksSent, blocksReceived, labels, dists, buffers)
    requires blocksReceived < numBlocks
    requires |buffers'| == |buffers| && forall b :: 0 <= b < |buffers| ==> buffers'[b] == buffers[b] + [blocksReceived]
    ensures Counting(numBlocks, initial, arrived, sent, blocksSent, blocksReceived + 1, labels, dists, buffers')
  {
    assert Upto(blocksReceived + 1) == Upto(blocksReceived) + [blocksReceived];
  }

  // ---------------------------------------------------------------------------------------
  // comm_handler_both: a CPU lane and a GPU lane, ids kept in one FIFO per lane.
  // ---------------------------------------------------------------------------------------

  /** The buffers shared with one lane's search thread: the query blocks it has not yet
      taken, and the label and distance blocks it has produced and the handler has not yet
      sent. The search thread inserts a searched block's label block before its distance
      block, so the handler can find a label block whose distance block is not in yet. */
  datatype Pipe = Pipe(queries: seq<nat>, labels: seq<nat>, dists: seq<nat>)

  /** How far one lane's search thread gets between two passes of the handler: how many more
      query blocks it searches, inserting their label blocks, and how many more distance
      blocks it inserts. */
  datatype Work = Work(labels: nat, dists: nat)

  /** The lane's search thread between two passes of the handler: it searches up to
      w.labels more query blocks in order, inserting a label block for each, then inserts up
      to w.dists more distance blocks, each for a block whose label block is already in. */
  function Worked(p: Pipe, w: Work): (p': Pipe)
    ensures p'.labels + p'.queries == p.labels + p.queries
    ensures p.labels <= p'.labels && p.dists <= p'.dists
    ensures p.dists <= p.labels ==> p'.dists <= p'.labels
  {
    var m := Min(w.labels, |p.queries|);
    var labels := p.labels + p.queries[..m];
    assert labels + p.queries[m..] == p.labels + p.queries;
    if |p.dists| <= |labels| then
      var d := Min(w.dists, |labels| - |p.dists|);
      Pipe(p.queries[m..], labels, p.dists + labels[|p.dists|..|p.dists| + d])
    else
      Pipe(p.queries[m..], labels, p.dists)
  }

  /** The progress of the two search threads before one pass. */
  datatype Progress = Progress(gpu: Work, cpu: Work)

  /** The messages of one lane's send burst: as many as both result buffers hold blocks, the
      j-th tagged with the j-th id of the lane's id queue and carrying the j-th label block
      and the j-th distance block. */
  function Burst(p: Pipe, ids: seq<nat>): (out: seq<Sent>)
    requires |ids| >= Min(|p.dists|, |p.labels|)
    ensures |out| == Min(|p.dists|, |p.labels|) && Ids(out) == ids[..|out|]
    ensures forall j :: 0 <= j < |out| ==> out[j].labels == p.labels[j] && out[j].dists == p.dists[j]
  {
    var n := Min(|p.dists|, |p.labels|);
    var out := seq(n, j requires 0 <= j < n => Sent(ids[j], p.labels[j], p.dists[j]));
    assert Ids(out) == ids[..n];
    out
  }

  /** The lane after its burst: the blocks sent are gone from both result buffers. When the
      distance blocks are a prefix of the label blocks, every block with both results in is
      sent. */
  function Flushed(p: Pipe): (p': Pipe)
    ensures p'.queries == p.queries
    ensures p.dists <= p.labels ==> p'.dists == [] && p.labels == p.dists + p'.labels
  {
    var n := Min(|p.dists|, |p.labels|);
    Pipe(p.queries, p.labels[n..], p.dists[n..])
  }

  /** One lane's send burst (search.cpp:84-101 for the GPU, 103-123 for the CPU): as many
      messages as both result buffers have blocks, each tagged with the id at the front of
      the lane's id queue, which is popped, and carrying the front label and distance blocks,
      which are removed. */
  method SendLane(p: Pipe, ids: seq<nat>) returns (p': Pipe, ids': seq<nat>, out: seq<Sent>)
    requires |ids| >= Min(|p.dists|, |p.labels|)
    ensures out == Burst(p, ids)
    ensures p' == Flushed(p) && ids' == ids[|out|..]
  {
    var ready := Min(|p.dists|, |p.labels|);
    p', ids', out := p, ids, [];
    for i := 0 to ready
      invariant |out| == i && ids' == ids[i..]
      invariant p' == Pipe(p.queries, p.labels[i..], p.dists[i..])
      invariant forall j :: 0 <= j < i ==> out[j] == Sent(ids[j], p.labels[j], p.dists[j])
    {
      var labelBlock, distBlock := p'.labels[0], p'.dists[0];
      var blockId := ids'[0];
      ids' := ids'[1..];
      out := out + [Sent(blockId, labelBlock, distBlock)];
      p' := p'.(labels := p'.labels[1..], dists := p'.dists[1..]);
    }
    assert out == Burst(p, ids);
  }

  /** The ids in a sequence that belong to the given lane, in order. */
  function OnLane(ids: seq<nat>, r: nat, lane: Lane): seq<nat> {
    if ids == [] then []
    else OnLane(ids[..|ids| - 1], r, lane) + (if LaneOf(ids[|ids| - 1], r) == lane then [ids[|ids| - 1]] else [])
  }

  lemma {:induction false} OnLaneAppend(a: seq<nat>, b: seq<nat>, r: nat, lane: Lane)
    ensures OnLane(a + b, r, lane) == OnLane(a, r, lane) + OnLane(b, r, lane)
  {
    if b == [] {
      assert a + b == a;
    } else {
      var b0 := b[..|b| - 1];
      assert (a + b)[..|a + b| - 1] == a + b0;
      OnLaneAppend(a, b0, r, lane);
    }
  }

  lemma {:induction false} OnLaneAll(ids: seq<nat>, r: nat, lane: Lane)
    requires forall j :: 0 <= j < |ids| ==> LaneOf(ids[j], r) == lane
    ensures OnLane(ids, r, lane) == ids
    ensures forall other :: other != lane ==> OnLane(ids, r, other) == []
  {
    if ids != [] {
      OnLaneAll(ids[..|ids| - 1], r, lane);
      assert ids[..|ids| - 1] + [ids[|ids| - 1]] == ids;
    }
  }

  /** What one lane keeps true: its distance blocks are a prefix of its label blocks, its
      results come in the same order as its queries, and its id queue holds the lane's ids
      not yet sent, which are exactly the blocks whose label blocks or queries the buffers
      still hold; what it has sent followed by what it holds is the list of blocks the
      rotation has given it. */
  ghost predicate LaneInv(sent: seq<Sent>, ids: seq<nat>, p: Pipe, received: nat, r: nat, lane: Lane) {
    && p.dists <= p.labels
    && ids == p.labels + p.queries
    && OnLane(Ids(sent), r, lane) + ids == LaneBlocks(received, r, lane)
  }

  /** Every message's id names the query block whose label and distance blocks it carries. */
  ghost predicate Tagged(sent: seq<Sent>) {
    forall j :: 0 <= j < |sent| ==> sent[j].labels == sent[j].id && sent[j].dists == sent[j].id
  }

  /** comm_handler_both's state between passes. */
  ghost predicate Dispatching(r: nat, numBlocks: nat, received: nat, untilCpu: nat, blocksSent: nat,
                              sent: seq<Sent>, cpuIds: seq<nat>, gpuIds: seq<nat>, cpu: Pipe, gpu: Pipe) {
    && received <= numBlocks
    && untilCpu == r - received % (r + 1)
    && blocksSent == |sent|
    && Tagged(sent)
    && LaneInv(sent, gpuIds, gpu, received, r, Gpu)
    && LaneInv(sent, cpuIds, cpu, received, r, Cpu)
  }

  /** A search thread's progress keeps its lane's invariant. */
  lemma WorkKeepsLane(sent: seq<Sent>, ids: seq<nat>, p: Pipe, received: nat, r: nat, lane: Lane, w: Work)
    requires LaneInv(sent, ids, p, received, r, lane)
    ensures LaneInv(sent, ids, Worked(p, w), received, r, lane)
  {
  }

  /** A send burst from one lane keeps the dispatch invariant of both lanes, and every message
      it sends carries the results of the block its id names. */
  lemma SendKeepsLanes(sent: seq<Sent>, out: seq<Sent>, ids: seq<nat>, p: Pipe, otherIds: seq<nat>, other: Pipe,
                       received: nat, r: nat, lane: Lane, otherLane: Lane)
    requires lane != otherLane
    requires Tagged(sent)
    requires LaneInv(sent, ids, p, received, r, lane) && LaneInv(sent, otherIds, other, received, r, otherLane)
    requires |out| <= |p.dists| && Ids(out) == ids[..|out|]
    requires forall j :: 0 <= j < |out| ==> out[j].labels == p.labels[j] && out[j].dists == p.dists[j]
    ensures Tagged(sent + out)
    ensures LaneInv(sent + out, ids[|out|..], Pipe(p.queries, p.labels[|out|..], p.dists[|out|..]), received, r, lane)
    ensures LaneInv(sent + out, otherIds, other, received, r, otherLane)
  {
    BurstTagged(sent, out, ids, p);
    BurstKeepsOwnLane(sent, out, ids, p, received, r, lane);
    BurstOnLane(sent, out, ids, p, received, r, lane);
  }

  lemma BurstKeepsOwnLane(sent: seq<Sent>, out: seq<Sent>, ids: seq<nat>, p: Pipe, received: nat, r: nat, lane: Lane)
    requires LaneInv(sent, ids, p, received, r, lane)
    requires |out| <= |p.dists| && Ids(out) == ids[..|out|]
    ensures LaneInv(sent + out, ids[|out|..], Pipe(p.queries, p.labels[|out|..], p.dists[|out|..]), received, r, lane)
  {
    BurstOnLane(sent, out, ids, p, received, r, lane);
    assert ids == ids[..|out|] + ids[|out|..];
    DropFromPrefix(p.dists, p.labels, p.queries, |out|);
  }

  /** Dropping the same number of blocks from both result buffers keeps the distance blocks
      a prefix of the label blocks. */
  lemma DropFromPrefix(dists: seq<nat>, labels: seq<nat>, queries: seq<nat>, k: nat)
    requires dists <= labels && k <= |dists|
    ensures (labels + queries)[k..] == labels[k..] + queries
    ensures dists[k..] <= labels[k..]
  {
    assert |dists| <= |labels|;
    assert forall j :: 0 <= j < |dists| - k ==> dists[k..][j] == dists[k + j] == labels[k + j];
  }

  /** The ids a burst sends are the front of its lane's list, so on that lane the sent ids
      grow by exactly them and on the other lane not at all. */
  lemma BurstOnLane(sent: seq<Sent>, out: seq<Sent>, ids: seq<nat>, p: Pipe, received: nat, r: nat, lane: Lane)
    requires LaneInv(sent, ids, p, received, r, lane)
    requires |out| <= |ids| && Ids(out) == ids[..|out|]
    ensures OnLane(Ids(sent + out), r, lane) == OnLane(Ids(sent), r, lane) + ids[..|out|]
    ensures forall other :: other != lane ==> OnLane(Ids(sent + out), r, other) == OnLane(Ids(sent), r, other)
  {
    var done := OnLane(Ids(sent), r, lane);
    forall j | 0 <= j < |out|
      ensures LaneOf(Ids(out)[j], r) == lane
    {
      assert ids[j] == LaneBlocks(received, r, lane)[|done| + j];
      LaneBlocksPartition(received, r, ids[j]);
    }
    OnLaneAll(Ids(out), r, lane);
    assert Ids(sent + out) == Ids(sent) + Ids(out);
    forall other | true
      ensures OnLane(Ids(sent + out), r, other) == OnLane(Ids(sent), r, other) + OnLane(Ids(out), r, other)
    {
      OnLaneAppend(Ids(sent), Ids(out), r, other);
    }
  }

  /** A burst whose ids are the front of a queue that lists the result blocks first, taking
      no more messages than there are distance blocks, carries in every message the results
      of the block its id names. */
  lemma BurstTagged(sent: seq<Sent>, out: seq<Sent>, ids: seq<nat>, p: Pipe)
    requires Tagged(sent)
    requires p.dists <= p.labels && ids == p.labels + p.queries
    requires |out| <= |p.dists| && Ids(out) == ids[..|out|]
    requires forall j :: 0 <= j < |out| ==> out[j].labels == p.labels[j] && out[j].dists == p.dists[j]
    ensures Tagged(sent + out)
  {
    var all := sent + out;
    forall j | 0 <= j < |all|
      ensures all[j].labels == all[j].id && all[j].dists == all[j].id
    {
      if j >= |sent| {
        var i := j - |sent|;
        assert all[j] == out[i];
        assert out[i].id == Ids(out)[i] == ids[i] == p.labels[i] == p.dists[i];
      } else {
        assert all[j] == sent[j];
      }
    }
  }

  /** Receiving block number `received` into the lane the countdown picks keeps the dispatch
      invariant. */
  lemma ReceiveKeepsLanes(sent: seq<Sent>, gpuIds: seq<nat>, gpu: Pipe, cpuIds: seq<nat>, cpu: Pipe,
                          received: nat, r: nat, untilCpu: nat)
    requires untilCpu == r - received % (r + 1)
    requires LaneInv(sent, gpuIds, gpu, received, r, Gpu) && LaneInv(sent, cpuIds, cpu, received, r, Cpu)
    ensures Rotate(untilCpu, r).1 == r - (received + 1) % (r + 1)
    ensures Rotate(untilCpu, r).0 == Gpu ==>
      LaneInv(sent, gpuIds + [received], gpu.(queries := gpu.queries + [received]), received + 1, r, Gpu) &&
      LaneInv(sent, cpuIds, cpu, received + 1, r, Cpu)
    ensures Rotate(untilCpu, r).0 == Cpu ==>
      LaneInv(sent, gpuIds, gpu, received + 1, r, Gpu) &&
      LaneInv(sent, cpuIds + [received], cpu.(queries := cpu.queries + [received]), received + 1, r, Cpu)
  {
    RotateFollowsLaneOf(received, r, untilCpu);
  }

  /** The sending half of one pass of comm_handler_both (search.cpp:84-123): the GPU lane's
      burst, then the CPU lane's. */
  method SendBursts(r: nat, numBlocks: nat, received: nat, untilCpu: nat, blocksSent: nat,
                    sent: seq<Sent>, cpuIds: seq<nat>, gpuIds: seq<nat>, cpu: Pipe, gpu: Pipe)
    returns (blocksSent': nat, sent': seq<Sent>, cpuIds': seq<nat>, gpuIds': seq<nat>, cpu': Pipe, gpu': Pipe)
    requires Dispatching(r, numBlocks, received, untilCpu, blocksSent, sent, cpuIds, gpuIds, cpu, gpu)
    ensures Dispatching(r, numBlocks, received, untilCpu, blocksSent', sent', cpuIds', gpuIds', cpu', gpu')
    ensures sent' == sent + Burst(gpu, gpuIds) + Burst(cpu, cpuIds)
    ensures gpu' == Flushed(gpu) && gpuIds' == gpuIds[|Burst(gpu, gpuIds)|..]
    ensures cpu' == Flushed(cpu) && cpuIds' == cpuIds[|Burst(cpu, cpuIds)|..]
  {
    var out;
    gpu', gpuIds', out := SendLane(gpu, gpuIds);
    SendKeepsLanes(sent, out, gpuIds, gpu, cpuIds, cpu, received, r, Gpu, Cpu);
    var mid := sent + out;
    cpu', cpuIds', out := SendLane(cpu, cpuIds);
    SendKeepsLanes(mid, out, cpuIds, cpu, gpuIds', gpu', received, r, Cpu, Gpu);
    sent' := mid + out;
    blocksSent' := blocksSent + |sent'| - |sent|;
  }

  /** The receiving half of one pass of comm_handler_both (search.cpp:126-140): block number
      `received` goes to the GPU lane while the countdown is positive, which it then
      decrements, and otherwise to the CPU lane, restarting the countdown at r; its number is
      pushed on the chosen lane's id queue. */
  method ReceiveBlock(r: nat, numBlocks: nat, received: nat, untilCpu: nat, blocksSent: nat,
                      sent: seq<Sent>, cpuIds: seq<nat>, gpuIds: seq<nat>, cpu: Pipe, gpu: Pipe)
    returns (untilCpu': nat, cpuIds': seq<nat>, gpuIds': seq<nat>, cpu': Pipe, gpu': Pipe)
    requires Dispatching(r, numBlocks, received, untilCpu, blocksSent, sent, cpuIds, gpuIds, cpu, gpu)
    requires received < numBlocks
    ensures Dispatching(r, numBlocks, received + 1, untilCpu', blocksSent, sent, cpuIds', gpuIds', cpu', gpu')
    ensures untilCpu' == Rotate(untilCpu, r).1
    ensures LaneOf(received, r) == Gpu ==>
      gpuIds' == gpuIds + [received] && gpu' == gpu.(queries := gpu.queries + [received]) && cpuIds' == cpuIds && cpu' == cpu
    ensures LaneOf(received, r) == Cpu ==>
      cpuIds' == cpuIds + [received] && cpu' == cpu.(queries := cpu.queries + [received]) && gpuIds' == gpuIds && gpu' == gpu
  {
    ReceiveKeepsLanes(sent, gpuIds, gpu, cpuIds, cpu, received, r, untilCpu);
    RotateFollowsLaneOf(received, r, untilCpu);
    untilCpu', cpuIds', gpuIds', cpu', gpu' := untilCpu, cpuIds, gpuIds, cpu, gpu;
    if untilCpu' >= 1 {
      gpu' := gpu'.(queries := gpu'.queries + [received]);
      untilCpu' := untilCpu' - 1;
      gpuIds' := gpuIds' + [received];
    } else {
      cpu' := cpu'.(queries := cpu'.queries + [received]);
      untilCpu' := r;
      cpuIds' := cpuIds' + [received];
    }
  }

  /** One lane after a pass: its burst sent, then block number `received` appended to its
      queries and its id queue when it is still to be received and the rotation picks this
      lane. */
  function LaneAfter(p: Pipe, ids: seq<nat>, received: nat, numBlocks: nat, r: nat, lane: Lane): (Pipe, seq<nat>) {
    var f := Flushed(p);
    var rest := ids[Min(Min(|p.dists|, |p.labels|), |ids|)..];
    if received < numBlocks && LaneOf(received, r) == lane then (f.(queries := f.queries + [received]), rest + [received])
    else (f, rest)
  }

  /** One pass of comm_handler_both's loop (search.cpp:84-140): the search threads advance
      as `step` says, the handler sends the GPU lane's burst and then the CPU lane's, and,
      while fewer than numBlocks have been received, takes block number `received` into the
      lane the countdown picks. */
  method Pass(r: nat, numBlocks: nat, received: nat, untilCpu: nat, blocksSent: nat,
              sent: seq<Sent>, cpuIds: seq<nat>, gpuIds: seq<nat>, cpu: Pipe, gpu: Pipe, step: Progress)
    returns (received': nat, untilCpu': nat, blocksSent': nat, sent': seq<Sent>,
             cpuIds': seq<nat>, gpuIds': seq<nat>, cpu': Pipe, gpu': Pipe)
    requires Dispatching(r, numBlocks, received, untilCpu, blocksSent, sent, cpuIds, gpuIds, cpu, gpu)
    ensures Dispatching(r, numBlocks, received', untilCpu', blocksSent', sent', cpuIds', gpuIds', cpu', gpu')
    ensures sent' == sent + Burst(Worked(gpu, step.gpu), gpuIds) + Burst(Worked(cpu, step.cpu), cpuIds)
    ensures received' == (if received < numBlocks then received + 1 else received)
    ensures untilCpu' == (if received < numBlocks then Rotate(untilCpu, r).1 else untilCpu)
    ensures (gpu', gpuIds') == LaneAfter(Worked(gpu, step.gpu), gpuIds, received, numBlocks, r, Gpu)
    ensures (cpu', cpuIds') == LaneAfter(Worked(cpu, step.cpu), cpuIds, received, numBlocks, r, Cpu)
  {
    WorkKeepsLane(sent, gpuIds, gpu, received, r, Gpu, step.gpu);
    WorkKeepsLane(sent, cpuIds, cpu, received, r, Cpu, step.cpu);
    var g, c := Worked(gpu, step.gpu), Worked(cpu, step.cpu);
    blocksSent', sent', cpuIds', gpuIds', cpu', gpu' := SendBursts(r, numBlocks, received, untilCpu, blocksSent, sent, cpuIds, gpuIds, c, g);
    received', untilCpu' := received, untilCpu;
    if received < numBlocks {
      untilCpu', cpuIds', gpuIds', cpu', gpu' := ReceiveBlock(r, numBlocks, received, untilCpu, blocksSent', sent', cpuIds', gpuIds', cpu', gpu');
      received' := received + 1;
    }
  }

  /** comm_handler_both's loop (search.cpp:83-141), one pass per element of progress. It
      stops once numBlocks messages have been sent, or when progress runs out. */
  method CommHandlerBoth(r: nat, numBlocks: nat, progress: seq<Progress>)
    returns (sent: seq<Sent>, blocksSent: nat, blocksReceived: nat, cpuIds: seq<nat>, gpuIds: seq<nat>,
             cpu: Pipe, gpu: Pipe, passes: nat)
    ensures passes <= |progress|
    ensures passes == |progress| || blocksSent >= numBlocks
    ensures Dispatching(r, numBlocks, blocksReceived, r - blocksReceived % (r + 1), blocksSent, sent, cpuIds, gpuIds, cpu, gpu)
  {
    blocksReceived := 0;
    var blocksUntilCpu := r;
    blocksSent := 0;
    cpuIds, gpuIds := [], [];
    cpu, gpu := Pipe([], [], []), Pipe([], [], []);
    sent, passes := [], 0;
    while blocksSent < numBlocks && passes < |progress|
      invariant passes <= |progress|
      invariant Dispatching(r, numBlocks, blocksReceived, blocksUntilCpu, blocksSent, sent, cpuIds, gpuIds, cpu, gpu)
      decreases |progress| - passes
    {
      blocksReceived, blocksUntilCpu, blocksSent, sent, cpuIds, gpuIds, cpu, gpu :=
        Pass(r, numBlocks, blocksReceived, blocksUntilCpu, blocksSent, sent, cpuIds, gpuIds, cpu, gpu, progress[passes]);
      passes := passes + 1;
    }
  }

  /** Three passes of comm_handler_both with r = 1 and two blocks: block 0 goes to the GPU
      lane and block 1 to the CPU lane, and the CPU thread finishes first. The third pass
      sends block 1 to the aggregator while block 0 still waits in the GPU lane, so the shard's
      messages leave out of block order. */
  method OutOfOrderRun() returns (sent: seq<Sent>, gpuIds: seq<nat>, gpu: Pipe)
    ensures Ids(sent) == [1]
    ensures gpuIds == [0] && gpu == Pipe([0], [], [])
  {
    var received, untilCpu, blocksSent, cpuIds, cpu;
    received, untilCpu, blocksSent, sent, cpuIds, gpuIds, cpu, gpu := BothBlocksQueued();
    CpuFinishesFirst();
    received, untilCpu, blocksSent, sent, cpuIds, gpuIds, cpu, gpu :=
      Pass(1, 2, received, untilCpu, blocksSent, sent, cpuIds, gpuIds, cpu, gpu, Progress(Work(0, 0), Work(1, 1)));
    assert sent == [Sent(1, 1, 1)];
  }

  /** The first two passes of OutOfOrderRun, with both search threads idle: block 0 is
      queued on the GPU lane and block 1 on the CPU lane, and nothing is sent. */
  method BothBlocksQueued() returns (received: nat, untilCpu: nat, blocksSent: nat, sent: seq<Sent>,
                                     cpuIds: seq<nat>, gpuIds: seq<nat>, cpu: Pipe, gpu: Pipe)
    ensures Dispatching(1, 2, received, untilCpu, blocksSent, sent, cpuIds, gpuIds, cpu, gpu)
    ensures (received, sent, gpuIds, gpu, cpuIds, cpu) == (2, [], [0], Pipe([0], [], []), [1], Pipe([1], [], []))
  {
    received, untilCpu, blocksSent, sent, cpuIds, gpuIds, cpu, gpu := BlockZeroQueued();
    BlockOneGoesToCpu();
    received, untilCpu, blocksSent, sent, cpuIds, gpuIds, cpu, gpu :=
      Pass(1, 2, received, untilCpu, blocksSent, sent, cpuIds, gpuIds, cpu, gpu, Progress(Work(0, 0), Work(0, 0)));
  }

  /** The first pass of OutOfOrderRun: block 0 is queued on the GPU lane. */
  method BlockZeroQueued() returns (received: nat, untilCpu: nat, blocksSent: nat, sent: seq<Sent>,
                                    cpuIds: seq<nat>, gpuIds: seq<nat>, cpu: Pipe, gpu: Pipe)
    ensures Dispatching(1, 2, received, untilCpu, blocksSent, sent, cpuIds, gpuIds, cpu, gpu)
    ensures (received, sent, gpuIds, gpu, cpuIds, cpu) == (1, [], [0], Pipe([0], [], []), [], Pipe([], [], []))
  {
    var empty := Pipe([], [], []);
    received, untilCpu, blocksSent, sent, cpuIds, gpuIds, cpu, gpu := 0, 1, 0, [], [], [], empty, empty;
    InitialDispatching(1, 2);
    BlockZeroGoesToGpu();
    received, untilCpu, blocksSent, sent, cpuIds, gpuIds, cpu, gpu :=
      Pass(1, 2, received, untilCpu, blocksSent, sent, cpuIds, gpuIds, cpu, gpu, Progress(Work(0, 0), Work(0, 0)));
  }

  /** comm_handler_both's state before its first pass satisfies the dispatch invariant. */
  lemma InitialDispatching(r: nat, numBlocks: nat)
    ensures Dispatching(r, numBlocks, 0, r, 0, [], [], [], Pipe([], [], []), Pipe([], [], []))
  {
    assert LaneBlocks(0, r, Gpu) == [] && LaneBlocks(0, r, Cpu) == [];
  }

  /** The first pass of OutOfOrderRun: nothing to send, block 0 goes to the GPU lane. */
  lemma BlockZeroGoesToGpu()
    ensures Burst(Worked(Pipe([], [], []), Work(0, 0)), []) == []
    ensures LaneAfter(Worked(Pipe([], [], []), Work(0, 0)), [], 0, 2, 1, Gpu) == (Pipe([0], [], []), [0])
    ensures LaneAfter(Worked(Pipe([], [], []), Work(0, 0)), [], 0, 2, 1, Cpu) == (Pipe([], [], []), [])
  {
    var empty := Pipe([], [], []);
    IdleWork(empty);
    assert Burst(empty, []) == [];
    assert Flushed(empty) == empty;
    assert LaneOf(0, 1) == Gpu;
    assert LaneAfter(empty, [], 0, 2, 1, Gpu) == (empty.(queries := [] + [0]), [] + [0]);
    assert empty.(queries := [] + [0]) == Pipe([0], [], []);
  }

  /** The second pass of OutOfOrderRun: nothing to send, block 1 goes to the CPU lane. */
  lemma BlockOneGoesToCpu()
    ensures Burst(Worked(Pipe([0], [], []), Work(0, 0)), [0]) == []
    ensures Burst(Worked(Pipe([], [], []), Work(0, 0)), []) == []
    ensures LaneAfter(Worked(Pipe([0], [], []), Work(0, 0)), [0], 1, 2, 1, Gpu) == (Pipe([0], [], []), [0])
    ensures LaneAfter(Worked(Pipe([], [], []), Work(0, 0)), [], 1, 2, 1, Cpu) == (Pipe([1], [], []), [1])
  {
    var empty, gpu := Pipe([], [], []), Pipe([0], [], []);
    IdleWork(empty);
    IdleWork(gpu);
    assert Burst(empty, []) == [] && Burst(gpu, [0]) == [];
    assert Flushed(empty) == empty && Flushed(gpu) == gpu;
    assert LaneOf(1, 1) == Cpu;
    assert LaneAfter(empty, [], 1, 2, 1, Cpu) == (empty.(queries := [] + [1]), [] + [1]);
    assert empty.(queries := [] + [1]) == Pipe([1], [], []);
  }

  /** The third pass of OutOfOrderRun: the GPU thread is still at block 0, the CPU thread
      searches block 1 and inserts both its results. */
  lemma CpuFinishesFirst()
    ensures Burst(Worked(Pipe([0], [], []), Work(0, 0)), [0]) == []
    ensures Burst(Worked(Pipe([1], [], []), Work(1, 1)), [1]) == [Sent(1, 1, 1)]
    ensures LaneAfter(Worked(Pipe([0], [], []), Work(0, 0)), [0], 2, 2, 1, Gpu) == (Pipe([0], [], []), [0])
  {
    var gpu := Pipe([0], [], []);
    IdleWork(gpu);
    assert Burst(gpu, [0]) == [];
    assert Flushed(gpu) == gpu;
    var cpuDone := Pipe([], [1], [1]);
    assert Worked(Pipe([1], [], []), Work(1, 1)) == cpuDone;
    assert Burst(cpuDone, [1]) == [Sent(1, 1, 1)];
  }

  /** A search thread that makes no progress leaves its lane as it was. */
  lemma IdleWork(p: Pipe)
    ensures Worked(p, Work(0, 0)) == p
  {
    assert p.labels + p.queries[..0] == p.labels;
    assert p.queries[0..] == p.queries;
    if |p.dists| <= |p.labels| {
      assert p.dists + p.labels[|p.dists|..|p.dists|] == p.dists;
    }
  }

  // ---------------------------------------------------------------------------------------
  // comm_handler_both with in-order sending: a lane sends its front block only when that
  // block is the next one in block order.
  // ---------------------------------------------------------------------------------------

  /** A lane can send the next message in block order: its front label and distance blocks
      are in, and its id queue's front is block number `next`. */
  predicate CanSendNext(p: Pipe, ids: seq<nat>, next: nat) {
    |p.dists| >= 1 && |p.labels| >= 1 && |ids| >= 1 && ids[0] == next
  }

  /** The numbers from a up to b-1 in order. */
  function Between(a: nat, b: nat): (s: seq<nat>)
    requires a <= b
    ensures |s| == b - a && forall j :: 0 <= j < |s| ==> s[j] == a + j
  {
    seq(b - a, j => a + j)
  }

  /** A lane's blocks are the blocks 0 .. n-1 the rotation gives it. */
  lemma {:induction false} LaneBlocksOnLane(n: nat, r: nat, lane: Lane)
    ensures LaneBlocks(n, r, lane) == OnLane(Upto(n), r, lane)
  {
    if n > 0 {
      LaneBlocksOnLane(n - 1, r, lane);
      assert Upto(n)[..n - 1] == Upto(n - 1);
    }
  }

  /** The blocks 0 .. n-1 are those before b, then b, then those after it. */
  lemma UptoAround(b: nat, n: nat)
    requires b < n
    ensures Upto(n) == Upto(b) + [b] + Between(b + 1, n)
  {
  }

  /** In a lane that has sent its blocks below b in order, block b, once received and given
      to this lane, is at the front of the lane's id queue. */
  lemma FrontOfLane(sent: seq<Sent>, ids: seq<nat>, p: Pipe, received: nat, r: nat, lane: Lane, b: nat)
    requires LaneInv(sent, ids, p, received, r, lane)
    requires Ids(sent) == Upto(b) && b < received && LaneOf(b, r) == lane
    ensures |ids| >= 1 && ids[0] == b
  {
    var before, after := OnLane(Upto(b), r, lane), OnLane(Between(b + 1, received), r, lane);
    LaneBlocksOnLane(received, r, lane);
    UptoAround(b, received);
    OnLaneAppend(Upto(b) + [b], Between(b + 1, received), r, lane);
    OnLaneAppend(Upto(b), [b], r, lane);
    assert [b][..0] == [];
    assert OnLane([b], r, lane) == [b];
    assert before + ids == before + [b] + after;
    assert (before + ids)[|before|] == b;
  }

  /** In a run that has sent blocks 0 .. blocksSent-1 in order, block number blocksSent, once
      received, is at the front of its lane's id queue: in-order sending waits only for that
      block's own results. */
  lemma NextAtFront(r: nat, numBlocks: nat, received: nat, untilCpu: nat, blocksSent: nat,
                    sent: seq<Sent>, cpuIds: seq<nat>, gpuIds: seq<nat>, cpu: Pipe, gpu: Pipe)
    requires Dispatching(r, numBlocks, received, untilCpu, blocksSent, sent, cpuIds, gpuIds, cpu, gpu)
    requires Ids(sent) == Upto(blocksSent) && blocksSent < received
    ensures LaneOf(blocksSent, r) == Gpu ==> |gpuIds| >= 1 && gpuIds[0] == blocksSent
    ensures LaneOf(blocksSent, r) == Cpu ==> |cpuIds| >= 1 && cpuIds[0] == blocksSent
  {
    if LaneOf(blocksSent, r) == Gpu {
      FrontOfLane(sent, gpuIds, gpu, received, r, Gpu, blocksSent);
    } else {
      FrontOfLane(sent, cpuIds, cpu, received, r, Cpu, blocksSent);
    }
  }

  /** Sending one message tagged with the next block number keeps the ids 0, 1, 2, ... */
  lemma AppendNext(sent: seq<Sent>, out: seq<Sent>, n: nat)
    requires Ids(sent) == Upto(n) && Ids(out) == [n]
    ensures Ids(sent + out) == Upto(n + 1)
  {
    assert Ids(sent + out) == Ids(sent) + Ids(out);
  }

  /** The GPU lane's in-order send of its front block keeps the dispatch invariant and the
      block order. */
  lemma GpuSendsNext(r: nat, numBlocks: nat, received: nat, untilCpu: nat, blocksSent: nat,
                     sent: seq<Sent>, cpuIds: seq<nat>, gpuIds: seq<nat>, cpu: Pipe, gpu: Pipe)
    requires Dispatching(r, numBlocks, received, untilCpu, blocksSent, sent, cpuIds, gpuIds, cpu, gpu)
    requires Ids(sent) == Upto(blocksSent) && CanSendNext(gpu, gpuIds, blocksSent)
    ensures var out := [Sent(gpuIds[0], gpu.labels[0], gpu.dists[0])];
      Dispatching(r, numBlocks, received, untilCpu, blocksSent + 1, sent + out, cpuIds, gpuIds[1..],
                  cpu, Pipe(gpu.queries, gpu.labels[1..], gpu.dists[1..])) &&
      Ids(sent + out) == Upto(blocksSent + 1)
  {
    var out := [Sent(gpuIds[0], gpu.labels[0], gpu.dists[0])];
    assert Ids(out) == gpuIds[..1];
    SendKeepsLanes(sent, out, gpuIds, gpu, cpuIds, cpu, received, r, Gpu, Cpu);
    AppendNext(sent, out, blocksSent);
  }

  /** The CPU lane's in-order send of its front block keeps the dispatch invariant and the
      block order. */
  lemma CpuSendsNext(r: nat, numBlocks: nat, received: nat, untilCpu: nat, blocksSent: nat,
                     sent: seq<Sent>, cpuIds: seq<nat>, gpuIds: seq<nat>, cpu: Pipe, gpu: Pipe)
    requires Dispatching(r, numBlocks, received, untilCpu, blocksSent, sent, cpuIds, gpuIds, cpu, gpu)
    requires Ids(sent) == Upto(blocksSent) && CanSendNext(cpu, cpuIds, blocksSent)
    ensures var out := [Sent(cpuIds[0], cpu.labels[0], cpu.dists[0])];
      Dispatching(r, numBlocks, received, untilCpu, blocksSent + 1, sent + out, cpuIds[1..], gpuIds,
                  Pipe(cpu.queries, cpu.labels[1..], cpu.dists[1..]), gpu) &&
      Ids(sent + out) == Upto(blocksSent + 1)
  {
    var out := [Sent(cpuIds[0], cpu.labels[0], cpu.dists[0])];
    assert Ids(out) == cpuIds[..1];
    SendKeepsLanes(sent, out, cpuIds, cpu, gpuIds, gpu, received, r, Cpu, Gpu);
    AppendNext(sent, out, blocksSent);
  }

  /** The sending half of an in-order pass: while either lane holds the complete results of
      block number blocksSent at its front, send that block. It stops with the messages still
      in block order and neither lane able to send the next block. */
  method SendInOrder(r: nat, numBlocks: nat, received: nat, untilCpu: nat, blocksSent: nat,
                     sent: seq<Sent>, cpuIds: seq<nat>, gpuIds: seq<nat>, cpu: Pipe, gpu: Pipe)
    returns (blocksSent': nat, sent': seq<Sent>, cpuIds': seq<nat>, gpuIds': seq<nat>, cpu': Pipe, gpu': Pipe)
    requires Dispatching(r, numBlocks, received, untilCpu, blocksSent, sent, cpuIds, gpuIds, cpu, gpu)
    requires Ids(sent) == Upto(blocksSent)
    ensures Dispatching(r, numBlocks, received, untilCpu, blocksSent', sent', cpuIds', gpuIds', cpu', gpu')
    ensures Ids(sent') == Upto(blocksSent') && blocksSent <= blocksSent'
    ensures !CanSendNext(gpu', gpuIds', blocksSent') && !CanSendNext(cpu', cpuIds', blocksSent')
  {
    blocksSent', sent', cpuIds', gpuIds', cpu', gpu' := blocksSent, sent, cpuIds, gpuIds, cpu, gpu;
    while CanSendNext(gpu', gpuIds', blocksSent') || CanSendNext(cpu', cpuIds', blocksSent')
      invariant Dispatching(r, numBlocks, received, untilCpu, blocksSent', sent', cpuIds', gpuIds', cpu', gpu')
      invariant Ids(sent') == Upto(blocksSent') && blocksSent <= blocksSent'
      decreases |gpu'.labels| + |cpu'.labels|
    {
      if CanSendNext(gpu', gpuIds', blocksSent') {
        GpuSendsNext(r, numBlocks, received, untilCpu, blocksSent', sent', cpuIds', gpuIds', cpu', gpu');
        sent' := sent' + [Sent(gpuIds'[0], gpu'.labels[0], gpu'.dists[0])];
        gpuIds' := gpuIds'[1..];
        gpu' := Pipe(gpu'.queries, gpu'.labels[1..], gpu'.dists[1..]);
      } else {
        CpuSendsNext(r, numBlocks, received, untilCpu, blocksSent', sent', cpuIds', gpuIds', cpu', gpu');
        sent' := sent' + [Sent(cpuIds'[0], cpu'.labels[0], cpu'.dists[0])];
        cpuIds' := cpuIds'[1..];
        cpu' := Pipe(cpu'.queries, cpu'.labels[1..], cpu'.dists[1..]);
      }
      blocksSent' := blocksSent' + 1;
    }
  }

  /** comm_handler_both with in-order sending, one pass per element of progress: the search
      threads advance, the handler sends in block order, then receives as before. Its
      messages carry the ids 0, 1, 2, ... in order, like comm_handler's, and once numBlocks
      have been sent they are exactly 0 .. numBlocks-1. */
  method CommHandlerBothInOrder(r: nat, numBlocks: nat, progress: seq<Progress>)
    returns (sent: seq<Sent>, blocksSent: nat, blocksReceived: nat, cpuIds: seq<nat>, gpuIds: seq<nat>,
             cpu: Pipe, gpu: Pipe, passes: nat)
    ensures passes <= |progress|
    ensures passes == |progress| || blocksSent >= numBlocks
    ensures Dispatching(r, numBlocks, blocksReceived, r - blocksReceived % (r + 1), blocksSent, sent, cpuIds, gpuIds, cpu, gpu)
    ensures Ids(sent) == Upto(blocksSent)
    ensures blocksSent >= numBlocks ==> Ids(sent) == Upto(numBlocks)
  {
    blocksReceived := 0;
    var blocksUntilCpu := r;
    blocksSent := 0;
    cpuIds, gpuIds := [], [];
    cpu, gpu := Pipe([], [], []), Pipe([], [], []);
    sent, passes := [], 0;
    while blocksSent < numBlocks && passes < |progress|
      invariant passes <= |progress|
      invariant Dispatching(r, numBlocks, blocksReceived, blocksUntilCpu, blocksSent, sent, cpuIds, gpuIds, cpu, gpu)
      invariant Ids(sent) == Upto(blocksSent)
      decreases |progress| - passes
    {
      WorkKeepsLane(sent, gpuIds, gpu, blocksReceived, r, Gpu, progress[passes].gpu);
      WorkKeepsLane(sent, cpuIds, cpu, blocksReceived, r, Cpu, progress[passes].cpu);
      gpu, cpu := Worked(gpu, progress[passes].gpu), Worked(cpu, progress[passes].cpu);
      blocksSent, sent, cpuIds, gpuIds, cpu, gpu := SendInOrder(r, numBlocks, blocksReceived, blocksUntilCpu, blocksSent, sent, cpuIds, gpuIds, cpu, gpu);
      if blocksReceived < numBlocks {
        blocksUntilCpu, cpuIds, gpuIds, cpu, gpu := ReceiveBlock(r, numBlocks, blocksReceived, blocksUntilCpu, blocksSent, sent, cpuIds, gpuIds, cpu, gpu);
        blocksReceived := blocksReceived + 1;
      }
      passes := passes + 1;
    }
    if blocksSent >= numBlocks {
      FinishedSendsEveryBlock(r, numBlocks, blocksReceived, r - blocksReceived % (r + 1), blocksSent, sent, cpuIds, gpuIds, cpu, gpu);
    }
  }

  lemma {:induction false} OnLaneSizes(ids: seq<nat>, r: nat)
    ensures |OnLane(ids, r, Gpu)| + |OnLane(ids, r, Cpu)| == |ids|
  {
    if ids != [] {
      OnLaneSizes(ids[..|ids| - 1], r);
    }
  }

  lemma {:induction false} OnLaneMembers(ids: seq<nat>, r: nat, lane: Lane, x: nat)
    requires x in OnLane(ids, r, lane)
    ensures x in ids
  {
    var init := ids[..|ids| - 1];
    if x in OnLane(init, r, lane) {
      OnLaneMembers(init, r, lane, x);
      assert x in init;
    } else {
      assert x == ids[|ids| - 1];
    }
  }

  /** When comm_handler_both has sent numBlocks messages, it has received all numBlocks
      blocks, both id queues are empty, it has sent exactly numBlocks messages, and every
      block 0 .. numBlocks-1 has had its results sent under its own id: the shard
      delivers every block to the aggregator. */
  lemma FinishedSendsEveryBlock(r: nat, numBlocks: nat, received: nat, untilCpu: nat, blocksSent: nat,
                                sent: seq<Sent>, cpuIds: seq<nat>, gpuIds: seq<nat>, cpu: Pipe, gpu: Pipe)
    requires Dispatching(r, numBlocks, received, untilCpu, blocksSent, sent, cpuIds, gpuIds, cpu, gpu)
    requires blocksSent >= numBlocks
    ensures received == numBlocks && blocksSent == numBlocks
    ensures cpuIds == [] && gpuIds == []
    ensures forall b :: 0 <= b < numBlocks ==> b in Ids(sent)
    ensures Blocks.Distinct(Ids(sent))
  {
    OnLaneSizes(Ids(sent), r);
    RotationMatchesSplit(received, r);
    assert |LaneBlocks(received, r, Gpu)| + |LaneBlocks(received, r, Cpu)| == received;
    forall b | 0 <= b < numBlocks
      ensures b in Ids(sent)
    {
      LaneBlocksPartition(numBlocks, r, b);
      OnLaneMembers(Ids(sent), r, LaneOf(b, r), b);
    }
    Blocks.RangeCard(numBlocks);
    ElementsAtMost(Ids(sent));
    assert Blocks.Range(numBlocks) <= Blocks.Elements(Ids(sent));
    SubsetCard(Blocks.Range(numBlocks), Blocks.Elements(Ids(sent)));
    FullElementsDistinct(Ids(sent));
  }

  lemma {:induction false} SubsetCard(a: set<nat>, b: set<nat>)
    requires a <= b
    ensures |a| <= |b|
  {
    if a != {} {
      var x :| x in a;
      SubsetCard(a - {x}, b - {x});
    }
  }

  lemma {:induction false} ElementsAtMost(xs: seq<nat>)
    ensures |Blocks.Elements(xs)| <= |xs|
  {
    if xs != [] {
      ElementsAtMost(xs[..|xs| - 1]);
    }
  }

  /** A sequence with as many different numbers as entries repeats none. */
  lemma {:induction false} FullElementsDistinct(xs: seq<nat>)
    requires |Blocks.Elements(xs)| == |xs|
    ensures Blocks.Distinct(xs)
  {
    if xs != [] {
      var init, last := xs[..|xs| - 1], xs[|xs| - 1];
      ElementsAtMost(init);
      assert Blocks.Elements(xs) == Blocks.Elements(init) + {last};
      FullElementsDistinct(init);
      forall i, j | 0 <= i < j < |xs|
        ensures xs[i] != xs[j]
      {
        if j < |xs| - 1 {
          assert xs[i] == init[i] && xs[j] == init[j];
        } else {
          assert xs[i] in init;
        }
      }
    }
  }
}
