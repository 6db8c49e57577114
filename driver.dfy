/** The search driver of one lane (main_driver): it asks the execution policy how many query
    blocks to search next, never more than are left of its workload, waits for them in its
    query buffer, and puts one label block and one distance block per searched query block
    into its result buffers. The policy's answers are given as a sequence, one per pass of
    the loop; the search itself is not modelled, so a result block is named by the query
    block it answers. */
module Driver {
  import opened Arith

  /** The blocks left to process after the policy has answered `requests` in turn, starting
      from `workload`: each answer is capped at what is left, and an answer of zero changes
      nothing. */
  function Remaining(workload: nat, requests: seq<nat>): (rest: nat)
    ensures rest <= workload
  {
    if requests == [] then workload
    else
      var before := Remaining(workload, requests[..|requests| - 1]);
      before - Min(requests[|requests| - 1], before)
  }

  /** main_driver's loop (search.cpp:152-172), bounded by the policy answers it is given.
      The query buffer eventually holds the lane's whole workload, which is what the wait for
      data relies on; each pass takes the next blocks from it. */
  method MainDriver(queries: seq<nat>, workload: nat, blockSize: nat, requests: seq<nat>)
    returns (blocksToBeProcessed: nat, nq: nat, labels: seq<nat>, dists: seq<nat>, passes: nat)
    requires workload <= |queries|
    ensures passes <= |requests| && (blocksToBeProcessed == 0 || passes == |requests|)
    ensures blocksToBeProcessed == Remaining(workload, requests[..passes])
    ensures labels == queries[..workload - blocksToBeProcessed] && dists == labels
    ensures nq == (workload - blocksToBeProcessed) * blockSize
  {
    blocksToBeProcessed, nq, labels, dists, passes := workload, 0, [], [], 0;
    var taken := 0;
    while blocksToBeProcessed > 0 && passes < |requests|
      invariant passes <= |requests|
      invariant blocksToBeProcessed == Remaining(workload, requests[..passes])
      invariant taken + blocksToBeProcessed == workload
      invariant labels == queries[..taken] && dists == labels
      invariant nq == taken * blockSize
      decreases |requests| - passes
    {
      assert requests[..passes + 1][..passes] == requests[..passes];
      var numBlocks := Min(requests[passes], blocksToBeProcessed);
      passes := passes + 1;
      if numBlocks == 0 {
        continue;
      }
      blocksToBeProcessed := blocksToBeProcessed - numBlocks;
      var nqueries := numBlocks * blockSize;
      nq := nq + nqueries;
      var searched := queries[taken..taken + numBlocks];
      labels := labels + searched;
      dists := dists + searched;
      assert queries[..taken] + searched == queries[..taken + numBlocks];
      taken := taken + numBlocks;
    }
  }

  /** Each answer of the policy takes min(answer, left) blocks: the blocks left never grow. */
  lemma {:induction false} RemainingShrinks(workload: nat, requests: seq<nat>, n: nat)
    requires n <= |requests|
    ensures Remaining(workload, requests) <= Remaining(workload, requests[..n])
  {
    if n < |requests| {
      var init := requests[..|requests| - 1];
      assert init[..n] == requests[..n];
      RemainingShrinks(workload, init, n);
    } else {
      assert requests[..n] == requests;
    }
  }

  /** A policy that answers zero every time leaves the whole workload unprocessed: the driver
      only retries. */
  lemma {:induction false} ZeroAnswersWait(workload: nat, requests: seq<nat>)
    requires forall i :: 0 <= i < |requests| ==> requests[i] == 0
    ensures Remaining(workload, requests) == workload
  {
    if requests != [] {
      ZeroAnswersWait(workload, requests[..|requests| - 1]);
    }
  }

  /** A policy that always asks for at least one block finishes the workload within
      `workload` answers: each answer takes at least one block while any is left. */
  lemma {:induction false} PositiveAnswersFinish(workload: nat, requests: seq<nat>)
    requires forall i :: 0 <= i < |requests| ==> requests[i] >= 1
    ensures Remaining(workload, requests) <= workload - Min(|requests|, workload)
  {
    if requests != [] {
      var init := requests[..|requests| - 1];
      PositiveAnswersFinish(workload, init);
    }
  }
}
