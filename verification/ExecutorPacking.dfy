/**
 How a task manager divides free GPUs into executors: node by node, with the largest profiled number of
 GPUs first.
*/
module ExecutorPacking {

  datatype Gpu = Gpu(node: nat, rank: nat)

  /** The profiled numbers of GPUs, largest first. */
  predicate Sizes(sizes: seq<nat>) {
    |sizes| > 0 && sizes[0] > 0 && (|sizes| > 1 ==> sizes[0] > sizes[1] && Sizes(sizes[1..]))
  }

  function Least(sizes: seq<nat>): (r: nat)
    requires Sizes(sizes)
    ensures 0 < r <= sizes[0]
  {
    if |sizes| == 1 then sizes[0] else Least(sizes[1..])
  }

  /** The sizes of the executors for `n` free GPUs of one node. */
  function Greedy(sizes: seq<nat>, n: nat): seq<nat>
    requires |sizes| == 0 || Sizes(sizes)
    decreases |sizes|, n
  {
    if |sizes| == 0 then []
    else if n >= sizes[0] then [sizes[0]] + Greedy(sizes, n - sizes[0])
    else Greedy(sizes[1..], n)
  }

  function Sum(xs: seq<nat>): nat {
    if |xs| == 0 then 0 else xs[0] + Sum(xs[1..])
  }

  /** Executors of profiled sizes that fit on `n` GPUs. */
  predicate Packing(sizes: seq<nat>, xs: seq<nat>, n: nat) {
    Sum(xs) <= n && forall i :: 0 <= i < |xs| ==> xs[i] in sizes
  }

  /** A packing that leaves fewer GPUs than the least size. */
  lemma {:induction false} GreedyPacks(sizes: seq<nat>, n: nat)
    requires Sizes(sizes)
    ensures Packing(sizes, Greedy(sizes, n), n) && n - Sum(Greedy(sizes, n)) < Least(sizes)
    decreases |sizes|, n
  {
    if n >= sizes[0] {
      GreedyPacks(sizes, n - sizes[0]);
      assert Greedy(sizes, n)[1..] == Greedy(sizes, n - sizes[0]);
    } else if |sizes| > 1 {
      GreedyPacks(sizes[1..], n);
      assert sizes == [sizes[0]] + sizes[1..];
    }
  }

  /** Each executor has the largest profiled size that the GPUs which are left allow. */
  lemma {:induction false} GreedyTakesLargest(sizes: seq<nat>, n: nat, i: nat)
    requires Sizes(sizes) && i < |Greedy(sizes, n)|
    ensures var xs := Greedy(sizes, n);
            && Sum(xs[..i]) + xs[i] <= n && xs[i] in sizes
            && forall x :: x in sizes && Sum(xs[..i]) + x <= n ==> x <= xs[i]
    decreases |sizes|, n
  {
    var xs := Greedy(sizes, n);
    if n >= sizes[0] {
      if i == 0 {
        forall x | x in sizes ensures x <= sizes[0] { HeadIsLargest(sizes, x); }
      } else {
        GreedyTakesLargest(sizes, n - sizes[0], i - 1);
        assert xs[..i] == [sizes[0]] + Greedy(sizes, n - sizes[0])[..i - 1];
        assert xs[..i][1..] == Greedy(sizes, n - sizes[0])[..i - 1];
      }
    } else {
      GreedyTakesLargest(sizes[1..], n, i);
      assert sizes == [sizes[0]] + sizes[1..];
    }
  }

  // ---- when each size divides the next larger one ----

  predicate Multiple(n: nat, d: nat)
    requires d > 0
  {
    n == 0 || (n >= d && Multiple(n - d, d))
  }

  predicate Chain(sizes: seq<nat>) {
    Sizes(sizes) && (|sizes| > 1 ==> sizes[1] > 0 && Multiple(sizes[0], sizes[1]) && Chain(sizes[1..]))
  }

  lemma {:induction false} MultipleAdd(a: nat, b: nat, d: nat)
    requires d > 0 && Multiple(a, d) && Multiple(b, d)
    ensures Multiple(a + b, d)
    decreases a
  {
    if a > 0 { MultipleAdd(a - d, b, d); }
  }

  lemma {:induction false} MultipleTrans(a: nat, b: nat, d: nat)
    requires b > 0 && d > 0 && Multiple(a, b) && Multiple(b, d)
    ensures Multiple(a, d)
    decreases a
  {
    if a > 0 {
      MultipleTrans(a - b, b, d);
      MultipleAdd(a - b, b, d);
    }
  }

  lemma {:induction false} MultipleSub(a: nat, b: nat, d: nat)
    requires d > 0 && Multiple(a, d) && Multiple(b, d) && b <= a
    ensures Multiple(a - b, d)
    decreases b
  {
    if b > 0 { MultipleSub(a - d, b - d, d); }
  }

  /** Multiples of `d` are at least `d` apart. */
  lemma {:induction false} MultiplesApart(a: nat, b: nat, d: nat)
    requires d > 0 && Multiple(a, d) && Multiple(b, d) && a < b + d
    ensures a <= b
    decreases a
  {
    if a > 0 && b > 0 { MultiplesApart(a - d, b - d, d); }
  }

  lemma {:induction false} HeadMultiple(sizes: seq<nat>)
    requires Chain(sizes)
    ensures Multiple(sizes[0], Least(sizes))
    decreases |sizes|
  {
    if |sizes| > 1 {
      HeadMultiple(sizes[1..]);
      MultipleTrans(sizes[0], sizes[1], Least(sizes));
    } else {
      assert Multiple(sizes[0] - sizes[0], sizes[0]);
    }
  }

  lemma {:induction false} AllMultiples(sizes: seq<nat>, x: nat)
    requires Chain(sizes) && x in sizes
    ensures Multiple(x, Least(sizes))
    decreases |sizes|
  {
    if x == sizes[0] {
      HeadMultiple(sizes);
    } else {
      assert sizes == [sizes[0]] + sizes[1..];
      AllMultiples(sizes[1..], x);
    }
  }

  lemma {:induction false} SumMultiple(sizes: seq<nat>, xs: seq<nat>)
    requires Chain(sizes) && forall i :: 0 <= i < |xs| ==> xs[i] in sizes
    ensures Multiple(Sum(xs), Least(sizes))
    decreases |xs|
  {
    if |xs| > 0 {
      SumMultiple(sizes, xs[1..]);
      AllMultiples(sizes, xs[0]);
      MultipleAdd(xs[0], Sum(xs[1..]), Least(sizes));
    }
  }

  function Count(sizes: seq<nat>, n: nat): nat
    requires |sizes| == 0 || Sizes(sizes)
  {
    |Greedy(sizes, n)|
  }

  /** More GPUs, by a multiple of the largest size, take more executors. */
  lemma {:induction false} CountGrows(sizes: seq<nat>, x: nat, m: nat)
    requires Sizes(sizes) && m > 0 && Multiple(m, sizes[0])
    ensures Count(sizes, x + m) >= 1 + Count(sizes, x)
    decreases m
  {
    assert Greedy(sizes, x + m) == [sizes[0]] + Greedy(sizes, x + m - sizes[0]);
    if m > sizes[0] {
      CountGrows(sizes, x, m - sizes[0]);
    }
  }

  /** Packing two amounts together never takes more executors than packing them apart. */
  lemma {:induction false} Subadditive(sizes: seq<nat>, a: nat, b: nat)
    requires Chain(sizes) && Multiple(a, Least(sizes)) && Multiple(b, Least(sizes))
    ensures Count(sizes, a + b) <= Count(sizes, a) + Count(sizes, b)
    decreases |sizes|, a + b
  {
    var s := sizes[0];
    HeadMultiple(sizes);
    if a >= s {
      MultipleSub(a, s, Least(sizes));
      Subadditive(sizes, a - s, b);
      assert a + b - s == a - s + b;
    } else if b >= s {
      MultipleSub(b, s, Least(sizes));
      Subadditive(sizes, a, b - s);
      assert a + b - s == a + (b - s);
    } else if |sizes| > 1 {
      Subadditive(sizes[1..], a, b);
      if a + b >= s {
        assert Greedy(sizes, a + b) == [s] + Greedy(sizes, a + b - s);
        CountGrows(sizes[1..], a + b - s, s);
      }
    }
  }

  /** Any executors for the same GPUs are at least as many as the greedy ones. */
  lemma {:induction false} GreedyIsFewest(sizes: seq<nat>, xs: seq<nat>)
    requires Chain(sizes) && forall i :: 0 <= i < |xs| ==> xs[i] in sizes
    ensures Count(sizes, Sum(xs)) <= |xs|
    decreases |xs|
  {
    if |xs| == 0 {
      NothingToPack(sizes);
    } else {
      GreedyIsFewest(sizes, xs[1..]);
      AllMultiples(sizes, xs[0]);
      SumMultiple(sizes, xs[1..]);
      Subadditive(sizes, xs[0], Sum(xs[1..]));
      OneSize(sizes, xs[0]);
    }
  }

  lemma {:induction false} NothingToPack(sizes: seq<nat>)
    requires |sizes| == 0 || Sizes(sizes)
    ensures Greedy(sizes, 0) == []
    decreases |sizes|
  {
    if |sizes| > 0 { NothingToPack(sizes[1..]); }
  }

  lemma {:induction false} OneSize(sizes: seq<nat>, x: nat)
    requires Sizes(sizes) && x in sizes
    ensures Greedy(sizes, x) == [x]
    decreases |sizes|
  {
    if x == sizes[0] {
      NothingToPack(sizes);
    } else {
      assert sizes == [sizes[0]] + sizes[1..];
      HeadIsLargest(sizes[1..], x);
      OneSize(sizes[1..], x);
    }
  }

  lemma {:induction false} HeadIsLargest(sizes: seq<nat>, x: nat)
    requires Sizes(sizes) && x in sizes
    ensures x <= sizes[0]
    decreases |sizes|
  {
    if x != sizes[0] {
      assert sizes == [sizes[0]] + sizes[1..];
      HeadIsLargest(sizes[1..], x);
    }
  }

  /** What is left over does not matter to the packing. */
  lemma {:induction false} LeftoverIgnored(sizes: seq<nat>, m: nat, rest: nat)
    requires Chain(sizes) && Multiple(m, Least(sizes)) && rest < Least(sizes)
    ensures Greedy(sizes, m + rest) == Greedy(sizes, m)
    decreases |sizes|, m
  {
    var s := sizes[0];
    HeadMultiple(sizes);
    if m >= s {
      MultipleSub(m, s, Least(sizes));
      LeftoverIgnored(sizes, m - s, rest);
      assert m + rest - s == m - s + rest;
    } else {
      if m + rest >= s { MultiplesApart(s, m, Least(sizes)); }
      if |sizes| > 1 {
          LeftoverIgnored(sizes[1..], m, rest);
      }
    }
  }

  /**
   If each size divides the next larger one, no packing uses more GPUs, and none with as many uses fewer
   executors.
   */
  lemma GreedyIsBest(sizes: seq<nat>, n: nat, xs: seq<nat>)
    requires Chain(sizes) && Packing(sizes, xs, n)
    ensures Sum(xs) <= Sum(Greedy(sizes, n))
    ensures Sum(xs) == Sum(Greedy(sizes, n)) ==> |Greedy(sizes, n)| <= |xs|
  {
    var m := Sum(Greedy(sizes, n));
    GreedyPacks(sizes, n);
    SumMultiple(sizes, Greedy(sizes, n));
    SumMultiple(sizes, xs);
    MultiplesApart(Sum(xs), m, Least(sizes));
    LeftoverIgnored(sizes, m, n - m);
    GreedyIsFewest(sizes, xs);
  }

  // ---- exactly when the greedy packing is the best one ----

  /** `ys` uses more GPUs than `xs`, or as many with no more executors. */
  predicate NoBetter(xs: seq<nat>, ys: seq<nat>) {
    Sum(xs) < Sum(ys) || (Sum(xs) == Sum(ys) && |ys| <= |xs|)
  }

  ghost predicate BestFor(sizes: seq<nat>, n: nat)
    requires Sizes(sizes)
  {
    forall xs {:trigger Packing(sizes, xs, n)} :: Packing(sizes, xs, n) ==> NoBetter(xs, Greedy(sizes, n))
  }

  lemma {:induction false} SizePositive(sizes: seq<nat>, x: nat)
    requires Sizes(sizes) && x in sizes
    ensures x > 0 && (x == sizes[0] || (|sizes| > 1 && x <= sizes[1] < sizes[0]))
    decreases |sizes|
  {
    if x != sizes[0] {
      assert sizes == [sizes[0]] + sizes[1..];
      SizePositive(sizes[1..], x);
      HeadIsLargest(sizes[1..], x);
    }
  }

  lemma PackingTail(sizes: seq<nat>, xs: seq<nat>, n: nat)
    requires Packing(sizes, xs, n) && |xs| > 0
    ensures xs[0] in sizes && Sum(xs) == xs[0] + Sum(xs[1..]) && xs[0] <= n && Packing(sizes, xs[1..], n - xs[0])
  {
  }

  lemma PackingCons(sizes: seq<nat>, xs: seq<nat>, n: nat, x: nat)
    requires Packing(sizes, xs, n) && x in sizes
    ensures Packing(sizes, [x] + xs, n + x) && Sum([x] + xs) == x + Sum(xs)
  {
    assert ([x] + xs)[1..] == xs;
  }

  lemma GreedyCons(sizes: seq<nat>, n: nat)
    requires Sizes(sizes) && n >= sizes[0]
    ensures Greedy(sizes, n) == [sizes[0]] + Greedy(sizes, n - sizes[0])
    ensures Sum(Greedy(sizes, n)) == sizes[0] + Sum(Greedy(sizes, n - sizes[0]))
  {
    assert Greedy(sizes, n)[1..] == Greedy(sizes, n - sizes[0]);
  }

  /** A packing can swap one executor for one of the largest size without loss, if greedy is best for fewer GPUs. */
  lemma {:induction false} BestAbove(sizes: seq<nat>, n: nat, xs: seq<nat>)
    requires Sizes(sizes) && |sizes| > 1 && Packing(sizes, xs, n)
    requires forall k: nat {:trigger BestFor(sizes, k)} :: k < sizes[0] + sizes[1] ==> BestFor(sizes, k)
    ensures NoBetter(xs, Greedy(sizes, n))
    decreases n
  {
    if n < sizes[0] + sizes[1] {
      assert BestFor(sizes, n);
    } else if |xs| == 0 {
      GreedyCons(sizes, n);
    } else {
      var s, x := sizes[0], xs[0];
      PackingTail(sizes, xs, n);
      SizePositive(sizes, x);
      BestAbove(sizes, n - x, xs[1..]);
      GreedyCons(sizes, n);
      if x < s {
        Smaller(sizes, n, x);
        BestAbove(sizes, n - s, [x] + Greedy(sizes, n - x - s));
      }
    }
  }

  /** What greedy does with the rest after an executor of a smaller size, and a packing made of it. */
  lemma Smaller(sizes: seq<nat>, n: nat, x: nat)
    requires Sizes(sizes) && x in sizes && n >= x + sizes[0]
    ensures var s := sizes[0];
            var rest := Greedy(sizes, n - x - s);
            && |Greedy(sizes, n - x)| == 1 + |rest| && Sum(Greedy(sizes, n - x)) == s + Sum(rest)
            && Packing(sizes, [x] + rest, n - s) && Sum([x] + rest) == x + Sum(rest)
  {
    var m := n - x - sizes[0];
    GreedyCons(sizes, n - x);
    GreedyPacks(sizes, m);
    PackingCons(sizes, Greedy(sizes, m), m, x);
  }

  /**
   For two sizes or more, greedy packing is the best for every number of GPUs if and only if it is the best
   for the finitely many numbers below the sum of the two largest sizes.
   */
  lemma BestIffBestBelow(sizes: seq<nat>)
    requires Sizes(sizes) && |sizes| > 1
    ensures (forall n: nat {:trigger BestFor(sizes, n)} :: BestFor(sizes, n)) <==>
            (forall n: nat {:trigger BestFor(sizes, n)} :: n < sizes[0] + sizes[1] ==> BestFor(sizes, n))
  {
    if forall n: nat {:trigger BestFor(sizes, n)} :: n < sizes[0] + sizes[1] ==> BestFor(sizes, n) {
      forall n: nat ensures BestFor(sizes, n) {
        forall xs | Packing(sizes, xs, n) ensures NoBetter(xs, Greedy(sizes, n)) {
          BestAbove(sizes, n, xs);
        }
      }
    }
  }

  /** It is not the best for four GPUs in twos and threes: one of three, where two of two would use all. */
  lemma GreedyCanWaste()
    ensures Sizes([3, 2]) && Greedy([3, 2], 4) == [3] && Packing([3, 2], [2, 2], 4) && !BestFor([3, 2], 4)
  {
    assert [3, 2][1..] == [2] && [2][1..] == [];
    assert Greedy([2], 1) == [] && Greedy([3, 2], 1) == [];
    assert [2, 2][1..] == [2];
    assert Sum([2, 2]) == 4;
    assert [3][1..] == [] && Sum([3]) == 3 && !NoBetter([2, 2], [3]);
  }

  // ---- which sizes the loop needs ----

  /** gpus[n:] */
  function From(gpus: seq<Gpu>, n: int): seq<Gpu> {
    if n > |gpus| then []
    else if n >= 0 then gpus[n..]
    else if -n > |gpus| then gpus
    else gpus[|gpus| + n..]
  }

  /** The GPUs that are left when the loop for one size has run `k` times. */
  function After(gpus: seq<Gpu>, n: int, k: nat): seq<Gpu> {
    if k == 0 then gpus else From(After(gpus, n, k - 1), n)
  }

  lemma {:induction false} AfterShrinks(gpus: seq<Gpu>, n: int, k: nat)
    requires n > 0
    ensures |After(gpus, n, k)| <= if k <= |gpus| then |gpus| - k else 0
  {
    if k > 0 { AfterShrinks(gpus, n, k - 1); }
  }

  /** `while len(gpus) >= n` ends exactly if `n` is positive, whatever the GPUs. */
  lemma LoopEndsIff(gpus: seq<Gpu>, n: int)
    ensures (exists k: nat :: |After(gpus, n, k)| < n) <==> n > 0
  {
    if n > 0 {
      AfterShrinks(gpus, n, |gpus|);
      assert |After(gpus, n, |gpus|)| < n;
    }
  }

  // ---- dividing the GPUs ----

  function Lengths(groups: seq<seq<Gpu>>): (r: seq<nat>)
    ensures |r| == |groups|
  {
    seq(|groups|, i requires 0 <= i < |groups| => |groups[i]|)
  }

  function Concat(groups: seq<seq<Gpu>>): seq<Gpu> {
    if |groups| == 0 then [] else Concat(groups[..|groups| - 1]) + groups[|groups| - 1]
  }

  lemma ConcatOne(groups: seq<seq<Gpu>>, g: seq<Gpu>)
    ensures Concat(groups + [g]) == Concat(groups) + g
  {
    assert (groups + [g])[..|groups|] == groups;
  }

  predicate Sorted(gpus: seq<Gpu>) {
    forall i, j :: 0 <= i < j < |gpus| ==> gpus[i].rank <= gpus[j].rank
  }

  /** The groups of one node: consecutive GPUs, in the sizes that Greedy gives. */
  method PackNode(gpus: seq<Gpu>, sizes: seq<nat>) returns (groups: seq<seq<Gpu>>, rest: seq<Gpu>)
    requires Sizes(sizes)
    ensures Concat(groups) + rest == gpus
    ensures Lengths(groups) == Greedy(sizes, |gpus|)
  {
    groups, rest := [], gpus;
    for i := 0 to |sizes|
      invariant Concat(groups) + rest == gpus
      invariant i < |sizes| ==> Sizes(sizes[i..])
      invariant Lengths(groups) + Greedy(sizes[i..], |rest|) == Greedy(sizes, |gpus|)
    {
      assert sizes[i..][1..] == sizes[i + 1..];
      while |rest| >= sizes[i]
        invariant Concat(groups) + rest == gpus
        invariant Lengths(groups) + Greedy(sizes[i..], |rest|) == Greedy(sizes, |gpus|)
        decreases |rest|
      {
        PackStep(groups, rest, sizes[i], sizes[i..]);
        groups, rest := groups + [rest[..sizes[i]]], rest[sizes[i]..];
      }
    }
    assert sizes[|sizes|..] == [];
  }

  lemma PackStep(groups: seq<seq<Gpu>>, rest: seq<Gpu>, n: nat, sizes: seq<nat>)
    requires Sizes(sizes) && n == sizes[0] && n <= |rest|
    ensures Concat(groups + [rest[..n]]) + rest[n..] == Concat(groups) + rest
    ensures Lengths(groups + [rest[..n]]) + Greedy(sizes, |rest| - n) == Lengths(groups) + Greedy(sizes, |rest|)
  {
    ConcatOne(groups, rest[..n]);
    assert rest == rest[..n] + rest[n..];
    assert Lengths(groups + [rest[..n]]) == Lengths(groups) + [n];
    assert Greedy(sizes, |rest|) == [n] + Greedy(sizes, |rest| - n);
  }

  /** Insertion by global rank, after GPUs of the same rank. */
  function Insert(gpus: seq<Gpu>, g: Gpu): seq<Gpu> {
    if |gpus| == 0 || gpus[|gpus| - 1].rank <= g.rank then gpus + [g]
    else Insert(gpus[..|gpus| - 1], g) + [gpus[|gpus| - 1]]
  }

  lemma {:induction false} InsertAdds(gpus: seq<Gpu>, g: Gpu)
    ensures multiset(Insert(gpus, g)) == multiset(gpus) + multiset{g}
    decreases |gpus|
  {
    var n := |gpus| - 1;
    if n >= 0 && gpus[n].rank > g.rank {
      InsertAdds(gpus[..n], g);
      assert gpus == gpus[..n] + [gpus[n]];
    }
  }

  lemma {:induction false} InsertSorts(gpus: seq<Gpu>, g: Gpu)
    requires Sorted(gpus)
    ensures Sorted(Insert(gpus, g))
    decreases |gpus|
  {
    var n := |gpus| - 1;
    if n >= 0 && gpus[n].rank > g.rank {
      InsertSorts(gpus[..n], g);
      InsertAdds(gpus[..n], g);
      forall x | x in Insert(gpus[..n], g) ensures x.rank <= gpus[n].rank {
        assert x in multiset(Insert(gpus[..n], g));
        assert x in gpus[..n] || x == g;
      }
      SortedAppend(Insert(gpus[..n], g), gpus[n]);
    } else {
      SortedAppend(gpus, g);
    }
  }

  lemma SortedAppend(gpus: seq<Gpu>, g: Gpu)
    requires Sorted(gpus) && forall x :: x in gpus ==> x.rank <= g.rank
    ensures Sorted(gpus + [g])
  {
  }

  /** sorted(gpus, key=global_rank) */
  method SortByRank(gpus: seq<Gpu>) returns (r: seq<Gpu>)
    ensures Sorted(r) && multiset(r) == multiset(gpus)
  {
    r := [];
    for i := 0 to |gpus|
      invariant Sorted(r) && multiset(r) == multiset(gpus[..i])
    {
      InsertSorts(r, gpus[i]);
      InsertAdds(r, gpus[i]);
      assert gpus[..i + 1] == gpus[..i] + [gpus[i]];
      r := Insert(r, gpus[i]);
    }
    assert gpus[..|gpus|] == gpus;
  }

  function OfNode(gpus: seq<Gpu>, node: nat): seq<Gpu> {
    if |gpus| == 0 then []
    else OfNode(gpus[..|gpus| - 1], node) + if gpus[|gpus| - 1].node == node then [gpus[|gpus| - 1]] else []
  }

  lemma {:induction false} OfNodeCounts(gpus: seq<Gpu>, node: nat, g: Gpu)
    ensures multiset(OfNode(gpus, node))[g] == if g.node == node then multiset(gpus)[g] else 0
  {
    if |gpus| > 0 {
      OfNodeCounts(gpus[..|gpus| - 1], node, g);
      assert gpus == gpus[..|gpus| - 1] + [gpus[|gpus| - 1]];
    }
  }

  /** The free GPUs of each node. */
  method GroupByNode(gpus: seq<Gpu>) returns (nodes: seq<nat>, byNode: map<nat, seq<Gpu>>)
    ensures forall i, j :: 0 <= i < j < |nodes| ==> nodes[i] != nodes[j]
    ensures forall g :: g in gpus ==> g.node in nodes
    ensures forall n :: n in nodes ==> n in byNode && byNode[n] == OfNode(gpus, n)
  {
    nodes, byNode := [], map[];
    for i := 0 to |gpus|
      invariant Grouped(gpus, i, nodes, byNode)
    {
      var g := gpus[i];
      GroupStep(gpus, i, nodes, byNode);
      if g.node !in byNode {
        nodes := nodes + [g.node];
        byNode := byNode[g.node := []];
      }
      byNode := byNode[g.node := byNode[g.node] + [g]];
    }
    assert gpus[..|gpus|] == gpus;
  }

  /** The first `i` GPUs are grouped. */
  ghost predicate Grouped(gpus: seq<Gpu>, i: nat, nodes: seq<nat>, byNode: map<nat, seq<Gpu>>) {
    && i <= |gpus|
    && (forall j, k :: 0 <= j < k < |nodes| ==> nodes[j] != nodes[k])
    && (forall n {:trigger n in nodes} :: n in nodes <==> n in byNode)
    && (forall n {:trigger OfNode(gpus[..i], n)} :: OfNode(gpus[..i], n) == if n in byNode then byNode[n] else [])
    && (forall k :: 0 <= k < i ==> gpus[k].node in nodes)
  }

  lemma GroupStep(gpus: seq<Gpu>, i: nat, nodes: seq<nat>, byNode: map<nat, seq<Gpu>>)
    requires i < |gpus| && Grouped(gpus, i, nodes, byNode)
    ensures var g := gpus[i];
            var seen := g.node in byNode;
            Grouped(gpus, i + 1, if seen then nodes else nodes + [g.node],
                    byNode[g.node := (if seen then byNode[g.node] else []) + [g]])
  {
    var g := gpus[i];
    var seen := g.node in byNode;
    var byNode' := byNode[g.node := (if seen then byNode[g.node] else []) + [g]];
    assert g.node in nodes <==> seen;
    forall n ensures OfNode(gpus[..i + 1], n) == if n in byNode' then byNode'[n] else [] {
      assert gpus[..i + 1][..i] == gpus[..i];
      assert OfNode(gpus[..i], n) == if n in byNode then byNode[n] else [];
    }
  }

  /** One node's part of the result: its GPUs in groups, and what is left of them. */
  datatype NodePlan = NodePlan(node: nat, groups: seq<seq<Gpu>>, rest: seq<Gpu>)

  predicate PlanOk(plan: NodePlan, gpus: seq<Gpu>, sizes: seq<nat>)
    requires Sizes(sizes)
  {
    && multiset(Concat(plan.groups) + plan.rest) == multiset(OfNode(gpus, plan.node))
    && Sorted(Concat(plan.groups) + plan.rest)
    && Lengths(plan.groups) == Greedy(sizes, |OfNode(gpus, plan.node)|)
  }

  /** The packing part of update_resources. */
  method PlanExecutors(gpus: seq<Gpu>, sizes: seq<nat>) returns (plans: seq<NodePlan>)
    requires Sizes(sizes)
    ensures forall i, j :: 0 <= i < j < |plans| ==> plans[i].node != plans[j].node
    ensures forall g :: g in gpus ==> exists i :: 0 <= i < |plans| && plans[i].node == g.node
    ensures forall i :: 0 <= i < |plans| ==> PlanOk(plans[i], gpus, sizes)
  {
    var nodes, byNode := GroupByNode(gpus);
    plans := [];
    for k := 0 to |nodes|
      invariant |plans| == k && forall i :: 0 <= i < k ==> plans[i].node == nodes[i] && PlanOk(plans[i], gpus, sizes)
    {
      var sorted := SortByRank(byNode[nodes[k]]);
      var groups, rest := PackNode(sorted, sizes);
      SameLength(sorted, byNode[nodes[k]]);
      plans := plans + [NodePlan(nodes[k], groups, rest)];
    }
    forall g | g in gpus ensures exists i :: 0 <= i < |plans| && plans[i].node == g.node {
      var i :| 0 <= i < |nodes| && nodes[i] == g.node;
      assert plans[i].node == g.node;
    }
  }

  lemma SameLength(a: seq<Gpu>, b: seq<Gpu>)
    requires multiset(a) == multiset(b)
    ensures |a| == |b|
  {
    assert |multiset(a)| == |multiset(b)|;
  }

  /** Executors do not span nodes, have profiled sizes, and leave fewer GPUs of the node than the least size. */
  lemma PlanMeans(plan: NodePlan, gpus: seq<Gpu>, sizes: seq<nat>)
    requires Sizes(sizes) && PlanOk(plan, gpus, sizes)
    ensures |plan.rest| < Least(sizes)
    ensures forall i :: 0 <= i < |plan.groups| ==> |plan.groups[i]| in sizes
    ensures forall i, k :: 0 <= i < |plan.groups| && 0 <= k < |plan.groups[i]| ==> plan.groups[i][k].node == plan.node
  {
    var all, own := Concat(plan.groups) + plan.rest, OfNode(gpus, plan.node);
    SameLength(all, own);
    GreedyPacks(sizes, |own|);
    ConcatLength(plan.groups);
    assert |plan.rest| == |own| - Sum(Greedy(sizes, |own|));
    forall i | 0 <= i < |plan.groups|
      ensures |plan.groups[i]| in sizes { assert Greedy(sizes, |own|)[i] == |plan.groups[i]|; }
    forall i, k | 0 <= i < |plan.groups| && 0 <= k < |plan.groups[i]| ensures plan.groups[i][k].node == plan.node {
      var g := plan.groups[i][k];
      InConcat(plan.groups, i, k);
      assert g in all && g in multiset(all);
      OfNodeCounts(gpus, plan.node, g);
    }
  }

  lemma {:induction false} InConcat(groups: seq<seq<Gpu>>, i: nat, k: nat)
    requires i < |groups| && k < |groups[i]|
    ensures groups[i][k] in Concat(groups)
    decreases |groups|
  {
    if i < |groups| - 1 { InConcat(groups[..|groups| - 1], i, k); }
  }

  lemma {:induction false} ConcatLength(groups: seq<seq<Gpu>>)
    ensures |Concat(groups)| == Sum(Lengths(groups))
  {
    if |groups| > 0 {
      var front := groups[..|groups| - 1];
      ConcatLength(front);
      assert Lengths(groups) == Lengths(front) + [|groups[|groups| - 1]|];
      SumAppend(Lengths(front), |groups[|groups| - 1]|);
    } else {
      assert Lengths(groups) == [];
    }
  }

  lemma {:induction false} SumAppend(xs: seq<nat>, x: nat)
    ensures Sum(xs + [x]) == Sum(xs) + x
  {
    if |xs| > 0 {
      assert (xs + [x])[1..] == xs[1..] + [x];
      SumAppend(xs[1..], x);
    } else {
      assert [x][1..] == [];
    }
  }
}
