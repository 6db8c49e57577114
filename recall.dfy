/** The aggregator's final report: the ground-truth table is cut down to its first k
    columns (load_gt) and each query's merged answers are compared with its true nearest
    neighbour (show_recall). The ground-truth file's contents are given as a flat
    row-major sequence of db_k-wide rows; reading the file is not modelled. */
module Recall {
  import opened Arith

  /** Position of column j of row i in a row-major table of the given width, that is
      i * width + j (AtIsProduct); defined by rows so that proofs about tables stay linear. */
  function At(i: nat, width: nat, j: nat): nat {
    if i == 0 then j else At(i - 1, width, j) + width
  }

  lemma {:induction false} AtShift(i: nat, width: nat, j: nat)
    ensures At(i, width, j) == At(i, width, 0) + j
  {
    if i > 0 {
      AtShift(i - 1, width, j);
    }
  }

  lemma {:induction false} AtIsProduct(i: nat, width: nat, j: nat)
    ensures At(i, width, j) == i * width + j
  {
    if i > 0 {
      AtIsProduct(i - 1, width, j);
      assert i * width == (i - 1) * width + width;
    }
  }

  lemma {:induction false} AtGrows(i: nat, i': nat, width: nat)
    requires i <= i'
    ensures At(i, width, 0) <= At(i', width, 0)
  {
    if i < i' {
      AtGrows(i, i' - 1, width);
    }
  }

  lemma AtShiftAll(i: nat, width: nat)
    ensures forall j :: At(i, width, j) == At(i, width, 0) + j
  {
    forall j | true
      ensures At(i, width, j) == At(i, width, 0) + j
    {
      AtShift(i, width, j);
    }
  }

  /** A row lies before the next row, so inside any table with more rows. */
  lemma RowFits(i: nat, rows: nat, width: nat)
    requires i < rows
    ensures At(i, width, 0) + width <= At(rows, width, 0)
  {
    AtGrows(i + 1, rows, width);
  }

  /** The cells load_gt reads all lie in the ground-truth file: row i's first k entries,
      for every row i below distinctQueries, the last of them being column k-1 of row
      distinctQueries-1. */
  predicate GtReadable(gtFile: seq<int>, dbK: nat, k: nat, distinctQueries: nat) {
    distinctQueries == 0 || k == 0 || At(distinctQueries - 1, dbK, k) <= |gtFile|
  }

  lemma CellReadable(gtFile: seq<int>, dbK: nat, k: nat, distinctQueries: nat, i: nat, j: nat)
    requires GtReadable(gtFile, dbK, k, distinctQueries)
    requires i < distinctQueries && j < k
    ensures At(i, dbK, j) < |gtFile|
  {
    AtShift(i, dbK, j);
    AtShift(distinctQueries - 1, dbK, k);
    AtGrows(i, distinctQueries - 1, dbK);
  }

  /** The inner loop of load_gt (aggregator.cpp:70-72): row i of the new table gets the first
      k entries of the file's row i, and no other cell changes. */
  method CopyRow(gt: array<int>, gtFile: seq<int>, i: nat, dbK: nat, k: nat)
    requires At(i, k, 0) + k <= gt.Length
    requires forall j :: 0 <= j < k ==> At(i, dbK, j) < |gtFile|
    modifies gt
    ensures forall j :: 0 <= j < k ==> At(i, k, j) < At(i, k, 0) + k && gt[At(i, k, j)] == gtFile[At(i, dbK, j)]
    ensures forall x :: 0 <= x < gt.Length && !(At(i, k, 0) <= x < At(i, k, 0) + k) ==> gt[x] == old(gt[x])
  {
    AtShiftAll(i, k);
    for j := 0 to k
      invariant forall j' :: 0 <= j' < j ==> gt[At(i, k, j')] == gtFile[At(i, dbK, j')]
      invariant forall x :: 0 <= x < gt.Length && !(At(i, k, 0) <= x < At(i, k, 0) + j) ==> gt[x] == old(gt[x])
    {
      gt[At(i, k, j)] := gtFile[At(i, dbK, j)];
    }
  }

  /** load_gt's reshaping loop (aggregator.cpp:65-73): a new table of distinctQueries rows
      of width k whose row i is the first k entries of the file's row i. */
  method LoadGt(gtFile: seq<int>, dbK: nat, k: nat, distinctQueries: nat) returns (gt: array<int>)
    requires GtReadable(gtFile, dbK, k, distinctQueries)
    ensures fresh(gt) && gt.Length == k * distinctQueries
    ensures forall i, j :: 0 <= i < distinctQueries && 0 <= j < k ==>
      At(i, k, j) < gt.Length && At(i, dbK, j) < |gtFile| && gt[At(i, k, j)] == gtFile[At(i, dbK, j)]
  {
    gt := new int[k * distinctQueries];
    AtIsProduct(distinctQueries, k, 0);
    for i := 0 to distinctQueries
      invariant At(i, k, 0) <= gt.Length
      invariant forall i', j :: 0 <= i' < i && 0 <= j < k ==>
        At(i', k, j) < At(i, k, 0) && At(i', dbK, j) < |gtFile| && gt[At(i', k, j)] == gtFile[At(i', dbK, j)]
    {
      RowFits(i, distinctQueries, k);
      forall j | 0 <= j < k
        ensures At(i, dbK, j) < |gtFile|
      {
        CellReadable(gtFile, dbK, k, distinctQueries, i, j);
      }
      CopyRow(gt, gtFile, i, dbK, k);
      AtShiftAll(i, k);
    }
  }

  /** How many of the n answers starting at `base` equal `target`. */
  function Matches(answers: seq<int>, base: nat, target: int, n: nat): (c: nat)
    requires base + n <= |answers|
    ensures c <= n
  {
    if n == 0 then 0
    else Matches(answers, base, target, n - 1) + (if answers[base + n - 1] == target then 1 else 0)
  }

  /** Query i's true nearest neighbour: the first entry of ground-truth row
      i mod distinctQueries, the ground truth repeating every distinctQueries queries. */
  function Nearest(gtFile: seq<int>, dbK: nat, k: nat, distinctQueries: nat, i: nat): (g: int)
    requires GtReadable(gtFile, dbK, k, distinctQueries) && distinctQueries >= 1 && k >= 1
    ensures g in gtFile
  {
    CellReadable(gtFile, dbK, k, distinctQueries, i % distinctQueries, 0);
    gtFile[At(i % distinctQueries, dbK, 0)]
  }

  /** The ground truth repeats every distinctQueries queries. */
  lemma NearestRepeats(gtFile: seq<int>, dbK: nat, k: nat, distinctQueries: nat, i: nat)
    requires GtReadable(gtFile, dbK, k, distinctQueries) && distinctQueries >= 1 && k >= 1
    ensures Nearest(gtFile, dbK, k, distinctQueries, i + distinctQueries) == Nearest(gtFile, dbK, k, distinctQueries, i)
  {
    DivModUnique(i + distinctQueries, distinctQueries, i / distinctQueries + 1, i % distinctQueries);
  }

  /** What show_recall needs of its inputs: an answer row of width k for each of the total
      queries, a readable ground truth, and, when there is any query, at least one
      ground-truth row with a first column to compare with. */
  ghost predicate Comparable(answers: seq<int>, gtFile: seq<int>, dbK: nat, k: nat, distinctQueries: nat, total: nat) {
    && |answers| == total * k
    && GtReadable(gtFile, dbK, k, distinctQueries)
    && (total == 0 || (distinctQueries >= 1 && k >= 1))
  }

  /** Row i of the answers lies inside them. */
  lemma AnswerRowFits(answers: seq<int>, k: nat, total: nat, i: nat)
    requires |answers| == total * k && i < total
    ensures At(i, k, 0) + k <= |answers|
  {
    AtIsProduct(total, k, 0);
    RowFits(i, total, k);
  }

  /** The recall count at cut-off `limit` over the first m queries: for each query i, how
      many of its first min(k, limit) answers are its true nearest neighbour. */
  function Hits(answers: seq<int>, gtFile: seq<int>, dbK: nat, k: nat, distinctQueries: nat, total: nat,
                limit: nat, m: nat): (h: nat)
    requires Comparable(answers, gtFile, dbK, k, distinctQueries, total) && m <= total
    ensures h <= m * Min(k, limit)
  {
    if m == 0 then 0
    else
      AnswerRowFits(answers, k, total, m - 1);
      Hits(answers, gtFile, dbK, k, distinctQueries, total, limit, m - 1)
        + Matches(answers, At(m - 1, k, 0), Nearest(gtFile, dbK, k, distinctQueries, m - 1), Min(k, limit))
  }

  /** Fewer answers cannot match more often. */
  lemma {:induction false} MatchesGrow(answers: seq<int>, base: nat, target: int, n: nat, n': nat)
    requires n <= n' && base + n' <= |answers|
    ensures Matches(answers, base, target, n) <= Matches(answers, base, target, n')
  {
    if n < n' {
      MatchesGrow(answers, base, target, n, n' - 1);
    }
  }

  /** A larger cut-off counts at least as many hits: n_1 <= n_10 <= n_100. */
  lemma {:induction false} HitsGrow(answers: seq<int>, gtFile: seq<int>, dbK: nat, k: nat, distinctQueries: nat,
                                    total: nat, limit: nat, limit': nat, m: nat)
    requires Comparable(answers, gtFile, dbK, k, distinctQueries, total) && m <= total
    requires limit <= limit'
    ensures Hits(answers, gtFile, dbK, k, distinctQueries, total, limit, m)
         <= Hits(answers, gtFile, dbK, k, distinctQueries, total, limit', m)
  {
    if m > 0 {
      HitsGrow(answers, gtFile, dbK, k, distinctQueries, total, limit, limit', m - 1);
      AnswerRowFits(answers, k, total, m - 1);
      MatchesGrow(answers, At(m - 1, k, 0), Nearest(gtFile, dbK, k, distinctQueries, m - 1), Min(k, limit), Min(k, limit'));
    }
  }

  /** With cut-off 1 each query scores at most once: n_1 is at most the number of queries. */
  lemma {:induction false} HitsAtOne(answers: seq<int>, gtFile: seq<int>, dbK: nat, k: nat, distinctQueries: nat,
                                     total: nat, m: nat)
    requires Comparable(answers, gtFile, dbK, k, distinctQueries, total) && m <= total
    ensures Hits(answers, gtFile, dbK, k, distinctQueries, total, 1, m) <= m
  {
    if m > 0 {
      HitsAtOne(answers, gtFile, dbK, k, distinctQueries, total, m - 1);
    }
  }

  /** The inner loop of show_recall (aggregator.cpp:101-107) over one answer row starting at
      `base`: each of the k answers equal to the true nearest neighbour adds one to the
      counts whose cut-off (1, 10, 100) lies above its rank. */
  method CountRow(answers: array<int>, base: nat, gtNn: int, k: nat, n1: nat, n10: nat, n100: nat)
    returns (n1': nat, n10': nat, n100': nat)
    requires base + k <= answers.Length
    ensures n1' == n1 + Matches(answers[..], base, gtNn, Min(k, 1))
    ensures n10' == n10 + Matches(answers[..], base, gtNn, Min(k, 10))
    ensures n100' == n100 + Matches(answers[..], base, gtNn, Min(k, 100))
  {
    n1', n10', n100' := n1, n10, n100;
    for j := 0 to k
      invariant n1' == n1 + Matches(answers[..], base, gtNn, Min(j, 1))
      invariant n10' == n10 + Matches(answers[..], base, gtNn, Min(j, 10))
      invariant n100' == n100 + Matches(answers[..], base, gtNn, Min(j, 100))
    {
      if answers[base + j] == gtNn {
        if j < 1 { n1' := n1' + 1; }
        if j < 10 { n10' := n10' + 1; }
        if j < 100 { n100' := n100' + 1; }
      }
    }
  }

  /** show_recall's counting loops (aggregator.cpp:91-107), over the numBlocks * blockSize
      merged answer rows, after loading the ground truth; the ratios it prints are left out. */
  method ShowRecall(answers: array<int>, gtFile: seq<int>, dbK: nat, k: nat, distinctQueries: nat,
                    numBlocks: nat, blockSize: nat)
    returns (n1: nat, n10: nat, n100: nat)
    requires Comparable(answers[..], gtFile, dbK, k, distinctQueries, numBlocks * blockSize)
    ensures n1 == Hits(answers[..], gtFile, dbK, k, distinctQueries, numBlocks * blockSize, 1, numBlocks * blockSize)
    ensures n10 == Hits(answers[..], gtFile, dbK, k, distinctQueries, numBlocks * blockSize, 10, numBlocks * blockSize)
    ensures n100 == Hits(answers[..], gtFile, dbK, k, distinctQueries, numBlocks * blockSize, 100, numBlocks * blockSize)
    ensures n1 <= n10 <= n100 && n1 <= numBlocks * blockSize
  {
    var gt := LoadGt(gtFile, dbK, k, distinctQueries);
    var total := numBlocks * blockSize;
    ghost var a := answers[..];
    n1, n10, n100 := 0, 0, 0;
    for i := 0 to total
      modifies {}
      invariant n1 == Hits(a, gtFile, dbK, k, distinctQueries, total, 1, i)
      invariant n10 == Hits(a, gtFile, dbK, k, distinctQueries, total, 10, i)
      invariant n100 == Hits(a, gtFile, dbK, k, distinctQueries, total, 100, i)
    {
      ModOfSmaller(i, total);
      var answerId := i % total;
      var nq := i % distinctQueries;
      var gtNn := gt[At(nq, k, 0)];
      AnswerRowFits(a, k, total, answerId);
      n1, n10, n100 := CountRow(answers, At(answerId, k, 0), gtNn, k, n1, n10, n100);
    }
    HitsGrow(a, gtFile, dbK, k, distinctQueries, total, 1, 10, total);
    HitsGrow(a, gtFile, dbK, k, distinctQueries, total, 10, 100, total);
    HitsAtOne(a, gtFile, dbK, k, distinctQueries, total, total);
  }
}
