/** The hybrid CPU/GPU workload of one search shard: search_both hands r GPU blocks for every
    CPU block, r being the rounded ratio of GPU to CPU throughput, and comm_handler_both
    routes incoming query blocks by a countdown that sends r blocks to the GPU lane and then
    one to the CPU lane. */
module Hybrid {
  import opened Arith

  /** The two search lanes of a hybrid shard. */
  datatype Lane = Cpu | Gpu

  /** The blocks each lane's driver is told to process. */
  datatype Workload = Workload(cpu: nat, gpu: nat)

  /** search_both's split of numBlocks blocks: the CPU driver gets the largest count c with
      (r + 1) * c <= numBlocks, the GPU driver the rest, hence at least r blocks for each
      CPU block. */
  function Split(numBlocks: nat, r: nat): (w: Workload)
    ensures w.cpu + w.gpu == numBlocks
    ensures (r + 1) * w.cpu <= numBlocks < (r + 1) * (w.cpu + 1)
    ensures w.gpu >= r * w.cpu
  {
    var cpu := numBlocks / (r + 1);
    DivBounds(numBlocks, r + 1);
    assert (r + 1) * cpu == r * cpu + cpu;
    Workload(cpu, numBlocks - cpu)
  }

  lemma DivBounds(n: nat, d: nat)
    requires d >= 1
    ensures d * (n / d) <= n < d * (n / d + 1)
  {
    assert n == d * (n / d) + n % d;
    assert d * (n / d + 1) == d * (n / d) + d;
  }

  /** With a GPU three times as fast as the CPU, 100 blocks split as 25 for the CPU and
      75 for the GPU. */
  lemma SplitExample()
    ensures Split(100, 3) == Workload(25, 75)
  {
  }

  /** The lane the countdown sends block number i to: every (r+1)-th block, starting with
      block r, goes to the CPU. */
  function LaneOf(i: nat, r: nat): (lane: Lane)
    ensures r == 0 ==> lane == Cpu
  {
    if i % (r + 1) == r then Cpu else Gpu
  }

  /** The lanes repeat with period r+1. */
  lemma LaneOfPeriodic(i: nat, r: nat)
    ensures LaneOf(i + (r + 1), r) == LaneOf(i, r)
  {
    DivModUnique(i + (r + 1), r + 1, i / (r + 1) + 1, i % (r + 1));
  }

  /** One step of comm_handler_both's countdown blocks_until_cpu: while it is positive the
      block goes to the GPU and the countdown drops by one; at zero the block goes to the CPU
      and the countdown restarts at r. */
  function Rotate(untilCpu: nat, r: nat): (step: (Lane, nat))
    ensures step.0 == Gpu ==> step.1 < untilCpu
    ensures step.0 == Cpu ==> untilCpu == 0 && step.1 == r
    ensures untilCpu <= r ==> step.1 <= r
  {
    if untilCpu >= 1 then (Gpu, untilCpu - 1) else (Cpu, r)
  }

  /** The countdown, started at r, equals r - (i mod (r+1)) before block i arrives; so
      block i goes to the lane LaneOf(i, r), and the countdown keeps that form. */
  lemma RotateFollowsLaneOf(i: nat, r: nat, untilCpu: nat)
    requires untilCpu == r - i % (r + 1)
    ensures Rotate(untilCpu, r).0 == LaneOf(i, r)
    ensures Rotate(untilCpu, r).1 == r - (i + 1) % (r + 1)
  {
    if i % (r + 1) == r {
      ModWrap(i, r + 1);
    } else {
      ModStep(i, r + 1);
    }
  }

  lemma ModWrap(i: nat, d: nat)
    requires d >= 1 && i % d == d - 1
    ensures (i + 1) % d == 0 && (i + 1) / d == i / d + 1
  {
    DivModUnique(i + 1, d, i / d + 1, 0);
  }

  lemma ModStep(i: nat, d: nat)
    requires d >= 1 && i % d < d - 1
    ensures (i + 1) % d == i % d + 1 && (i + 1) / d == i / d
  {
    DivModUnique(i + 1, d, i / d, i % d + 1);
  }

  /** The block numbers below n that go to the given lane, in increasing order: the ids
      comm_handler_both pushes onto that lane's id queue while receiving n blocks. */
  function LaneBlocks(n: nat, r: nat, lane: Lane): (s: seq<nat>)
    ensures forall j :: 0 <= j < |s| ==> s[j] < n
  {
    if n == 0 then []
    else LaneBlocks(n - 1, r, lane) + (if LaneOf(n - 1, r) == lane then [n - 1] else [])
  }

  /** Each lane's ids strictly increase. */
  lemma {:induction false} LaneBlocksIncrease(n: nat, r: nat, lane: Lane)
    ensures forall i, j :: 0 <= i < j < |LaneBlocks(n, r, lane)| ==> LaneBlocks(n, r, lane)[i] < LaneBlocks(n, r, lane)[j]
  {
    if n > 0 {
      LaneBlocksIncrease(n - 1, r, lane);
    }
  }

  /** Every block number below n is in exactly one lane's ids: the lanes are disjoint and
      together hold 0 .. n-1. */
  lemma {:induction false} LaneBlocksPartition(n: nat, r: nat, x: nat)
    requires x < n
    ensures x in LaneBlocks(n, r, Cpu) <==> LaneOf(x, r) == Cpu
    ensures x in LaneBlocks(n, r, Gpu) <==> LaneOf(x, r) == Gpu
  {
    if x < n - 1 {
      LaneBlocksPartition(n - 1, r, x);
    }
  }

  /** Among the first n blocks the rotation sends exactly n / (r+1) to the CPU and the rest
      to the GPU: the split search_both hands to the two drivers. */
  lemma {:induction false} RotationMatchesSplit(n: nat, r: nat)
    ensures |LaneBlocks(n, r, Cpu)| == Split(n, r).cpu
    ensures |LaneBlocks(n, r, Gpu)| == Split(n, r).gpu
  {
    if n > 0 {
      RotationMatchesSplit(n - 1, r);
      var i := n - 1;
      if i % (r + 1) == r {
        ModWrap(i, r + 1);
      } else {
        ModStep(i, r + 1);
      }
    }
  }
}
