/**
 Allocation of the cluster's GPUs: on as few nodes as possible, with a choice of what to do when several
 nodes have the same number of free GPUs.
*/
module ClusterResource {
  import opened Options

  class GPU {
    const node: nat
    const rank: nat
    var owner: Option<nat>

    constructor (node: nat, rank: nat)
      ensures this.node == node && this.rank == rank && owner == None
    {
      this.node, this.rank, owner := node, rank, None;
    }

    /** allocate_to; false stands for the ValueError. */
    method AllocateTo(o: nat) returns (ok: bool)
      modifies this
      ensures ok <==> old(owner) == None
      ensures owner == if ok then Some(o) else old(owner)
    {
      ok := owner == None;
      if ok {
        owner := Some(o);
      }
    }

    /** free; false stands for the ValueError. */
    method Free() returns (ok: bool)
      modifies this
      ensures ok <==> old(owner) != None
      ensures owner == None
    {
      ok := owner != None;
      owner := None;
    }
  }

  // ---- how many free GPUs a set of nodes has ----

  /** The sum of free[i] over the nodes i below n that are in s. */
  function FreeIn(free: seq<nat>, s: set<nat>, n: nat): nat
    requires n <= |free|
  {
    if n == 0 then 0 else FreeIn(free, s, n - 1) + if n - 1 in s then free[n - 1] else 0
  }

  function NodesIn(s: set<nat>, n: nat): nat {
    if n == 0 then 0 else NodesIn(s, n - 1) + if n - 1 in s then 1 else 0
  }

  /** No set of as many nodes has more free GPUs than one that prefers nodes with at least `m`. */
  lemma {:induction false} Exchange(free: seq<nat>, s: set<nat>, t: set<nat>, n: nat, m: nat)
    requires n <= |free|
    requires forall i :: 0 <= i < n ==> if i in t then free[i] >= m else free[i] <= m
    ensures FreeIn(free, s, n) - FreeIn(free, t, n) <= (NodesIn(s, n) - NodesIn(t, n)) * m
  {
    if n > 0 {
      Exchange(free, s, t, n - 1, m);
      Neighbours(NodesIn(s, n - 1) - NodesIn(t, n - 1), m);
    }
  }

  lemma Neighbours(a: int, m: nat)
    ensures (a + 1) * m == a * m + m && (a - 1) * m == a * m - m
  {
  }

  lemma {:induction false} FreeAdd(free: seq<nat>, t: set<nat>, i: nat, n: nat)
    requires n <= |free| && i !in t
    ensures FreeIn(free, t + {i}, n) == FreeIn(free, t, n) + if i < n then free[i] else 0
    ensures NodesIn(t + {i}, n) == NodesIn(t, n) + if i < n then 1 else 0
  {
    if n > 0 { FreeAdd(free, t, i, n - 1); }
  }

  lemma {:induction false} FreeBelow(free: seq<nat>, s: set<nat>, t: set<nat>, n: nat)
    requires n <= |free| && forall i :: 0 <= i < n && i in s && free[i] > 0 ==> i in t
    ensures FreeIn(free, s, n) <= FreeIn(free, t, n)
  {
    if n > 0 { FreeBelow(free, s, t, n - 1); }
  }

  lemma {:induction false} FreeOfNone(free: seq<nat>, n: nat)
    requires n <= |free|
    ensures FreeIn(free, {}, n) == 0 && NodesIn({}, n) == 0
  {
    if n > 0 { FreeOfNone(free, n - 1); }
  }

  lemma {:induction false} FreeAtLeast(free: seq<nat>, s: set<nat>, n: nat, i: nat)
    requires i < n <= |free| && i in s
    ensures FreeIn(free, s, n) >= free[i]
  {
    if i < n - 1 { FreeAtLeast(free, s, n - 1, i); }
  }

  // ---- the order of the nodes ----

  /** What is pushed on the heap: `tie` is the signed number of GPUs that the owner has on the node already. */
  datatype Entry = Entry(free: nat, tie: int, node: nat)

  predicate Before(a: Entry, b: Entry) {
    a.free > b.free || (a.free == b.free && (a.tie < b.tie || (a.tie == b.tie && a.node < b.node)))
  }

  /** heappop */
  method PopFirst(heap: seq<Entry>) returns (first: Entry, rest: seq<Entry>, ghost at: nat)
    requires |heap| > 0
    ensures at < |heap| && first == heap[at] && rest == heap[..at] + heap[at + 1..]
    ensures forall e :: e in heap ==> !Before(e, first)
  {
    var k := 0;
    for i := 1 to |heap|
      invariant k < |heap|
      invariant forall j :: 0 <= j < i ==> !Before(heap[j], heap[k])
    {
      if Before(heap[i], heap[k]) {
        k := i;
      }
    }
    first, rest, at := heap[k], heap[..k] + heap[k + 1..], k;
  }

  // ---- the cluster ----

  datatype Policy = Pack | Spread | Other

  datatype Result =
    | Allocated(gpus: seq<GPU>)
    | NotEnoughGPUs
    | CannotColocate
    | UnknownPolicy   // ValueError
    | IndexError      // the heap is empty
    | AssertionError  // a negative number was asked for

  /** The number of free GPUs in a list. */
  function FreeCount(gpus: seq<GPU>): nat
    reads set g | g in gpus
  {
    if |gpus| == 0 then 0 else FreeCount(gpus[..|gpus| - 1]) + if gpus[|gpus| - 1].owner == None then 1 else 0
  }

  function OwnedCount(gpus: seq<GPU>, o: nat): nat
    reads set g | g in gpus
  {
    if |gpus| == 0 then 0 else OwnedCount(gpus[..|gpus| - 1], o) + if gpus[|gpus| - 1].owner == Some(o) then 1 else 0
  }

  ghost function OwnedBy(gpus: seq<GPU>, owner: Option<nat>): set<GPU>
    reads set g | g in gpus
  {
    set g | g in gpus && g.owner == owner
  }

  lemma OwnedBySnoc(front: seq<GPU>, g: GPU, owner: Option<nat>)
    requires g !in front
    ensures |OwnedBy(front + [g], owner)| == |OwnedBy(front, owner)| + if g.owner == owner then 1 else 0
  {
    assert OwnedBy(front + [g], owner) == OwnedBy(front, owner) + if g.owner == owner then {g} else {};
  }

  /** Both count GPUs, each once. */
  lemma {:induction false} CountsAre(gpus: seq<GPU>, o: nat)
    requires Distinct(gpus)
    ensures FreeCount(gpus) == |OwnedBy(gpus, None)| && OwnedCount(gpus, o) == |OwnedBy(gpus, Some(o))|
  {
    if |gpus| > 0 {
      var front, last := gpus[..|gpus| - 1], gpus[|gpus| - 1];
      CountsAre(front, o);
      assert gpus == front + [last] && last !in front;
      OwnedBySnoc(front, last, None);
      OwnedBySnoc(front, last, Some(o));
    }
  }

  /** Of the GPUs that were free, the first ones in the list are taken. */
  ghost predicate FirstOnes(gpus: seq<GPU>, taken: seq<GPU>, was: map<GPU, Option<nat>>) {
    forall i, j {:trigger gpus[i], gpus[j]} :: 0 <= i < j < |gpus| && gpus[j] in taken ==>
      (gpus[i] in was && was[gpus[i]] == None ==> gpus[i] in taken)
  }

  /** Takes the first `k` free GPUs of a list, or all that are free. */
  method TakeFree(gpus: seq<GPU>, k: nat, o: nat) returns (taken: seq<GPU>)
    requires forall i, j :: 0 <= i < j < |gpus| ==> gpus[i] != gpus[j]
    modifies set g | g in gpus
    ensures |taken| == if k < old(FreeCount(gpus)) then k else old(FreeCount(gpus))
    ensures forall i, j :: 0 <= i < j < |taken| ==> taken[i] != taken[j]
    ensures forall g :: g in taken ==> g in gpus && old(g.owner) == None && g.owner == Some(o)
    ensures forall g :: g in gpus && g !in taken ==> g.owner == old(g.owner)
    ensures FirstOnes(gpus, taken, old(map g | g in gpus :: g.owner))
  {
    taken := [];
    for i := 0 to |gpus|
      invariant |taken| == if k < old(FreeCount(gpus[..i])) then k else old(FreeCount(gpus[..i]))
      invariant forall a, b :: 0 <= a < b < |taken| ==> taken[a] != taken[b]
      invariant forall g :: g in taken ==> g in gpus[..i] && old(g.owner) == None && g.owner == Some(o)
      invariant forall g :: g in gpus && g !in taken ==> g.owner == old(g.owner)
      invariant |taken| < k ==> forall a :: 0 <= a < i && old(gpus[a].owner) == None ==> gpus[a] in taken
      invariant forall a, b {:trigger gpus[a], gpus[b]} ::
                  0 <= a < b < i && old(gpus[a].owner) == None && gpus[b] in taken ==> gpus[a] in taken
    {
      assert gpus[..i + 1][..i] == gpus[..i];
      assert gpus[i] !in gpus[..i];
      if |taken| < k && gpus[i].owner == None {
        var ok := gpus[i].AllocateTo(o);
        taken := taken + [gpus[i]];
      }
    }
    assert gpus[..|gpus|] == gpus;
  }

  /** The nodes with free GPUs that are not in `used`, each once. */
  ghost predicate HeapOk(heap: seq<Entry>, free: seq<nat>, ties: seq<int>, used: set<nat>) {
    && |ties| == |free|
    && (forall k {:trigger heap[k]} :: 0 <= k < |heap| ==> EntryOk(heap[k], free, ties) && heap[k].node !in used)
    && (forall j, k {:trigger heap[j], heap[k]} :: 0 <= j < k < |heap| ==> heap[j].node != heap[k].node)
    && (forall i {:trigger OnHeap(heap, i)} :: 0 <= i < |free| && free[i] > 0 && i !in used ==> OnHeap(heap, i))
  }

  ghost predicate EntryOk(e: Entry, free: seq<nat>, ties: seq<int>) {
    e.node < |free| && |ties| == |free| && e.free == free[e.node] && e.free > 0 && e.tie == ties[e.node]
  }

  ghost predicate OnHeap(heap: seq<Entry>, i: nat) {
    exists k :: 0 <= k < |heap| && heap[k].node == i
  }

  lemma HeapPop(heap: seq<Entry>, free: seq<nat>, ties: seq<int>, used: set<nat>, at: nat)
    requires HeapOk(heap, free, ties, used) && at < |heap|
    ensures HeapOk(heap[..at] + heap[at + 1..], free, ties, used + {heap[at].node})
  {
    var rest := heap[..at] + heap[at + 1..];
    forall i | 0 <= i < |free| && free[i] > 0 && i !in used + {heap[at].node} ensures OnHeap(rest, i) {
      assert OnHeap(heap, i);
      var k :| 0 <= k < |heap| && heap[k].node == i;
      assert rest[if k < at then k else k - 1] == heap[k];
    }
  }

  /** Nodes in `used` have at least `low` free GPUs, and the other ones at most. */
  ghost predicate Split(free: seq<nat>, used: set<nat>, low: nat) {
    forall i {:trigger free[i]} :: 0 <= i < |free| ==> if i in used then free[i] >= low else free[i] <= low
  }

  lemma SplitPop(heap: seq<Entry>, free: seq<nat>, ties: seq<int>, used: set<nat>, low: nat, first: Entry)
    requires HeapOk(heap, free, ties, used) && Split(free, used, low) && first in heap
              && forall e :: e in heap ==> !Before(e, first)
    ensures Split(free, used + {first.node}, first.free) && first.free <= low && first.node !in used
    ensures EntryOk(first, free, ties)
  {
    var at :| 0 <= at < |heap| && heap[at] == first;
    forall i | 0 <= i < |free| && i !in used ensures free[i] <= first.free {
      if free[i] > 0 {
        assert OnHeap(heap, i);
        var k :| 0 <= k < |heap| && heap[k].node == i;
        assert heap[k] in heap && EntryOk(heap[k], free, ties);
      }
    }
  }

  /** If the used nodes have too few free GPUs, then so have any as few nodes. */
  lemma TooFew(free: seq<nat>, used: set<nat>, low: nat, s: set<nat>)
    requires Split(free, used, low) && NodesIn(s, |free|) <= NodesIn(used, |free|)
    ensures FreeIn(free, s, |free|) <= FreeIn(free, used, |free|)
  {
    Exchange(free, s, used, |free|, low);
    NotPositive(NodesIn(s, |free|) - NodesIn(used, |free|), low);
  }

  lemma NotPositive(a: int, m: nat)
    requires a <= 0
    ensures a * m <= 0
  {
  }

  /** No fewer nodes than `used` have `num` free GPUs. */
  ghost predicate FewestNodes(free: seq<nat>, used: set<nat>, num: int) {
    forall s: set<nat> {:trigger FreeIn(free, s, |free|)} :: FreeIn(free, s, |free|) >= num ==>
        NodesIn(s, |free|) >= NodesIn(used, |free|)
  }

  lemma LastNode(free: seq<nat>, used: set<nat>, low: nat, node: nat, num: int)
    requires Split(free, used, low) && FreeIn(free, used, |free|) < num && node !in used && node < |free|
    ensures FewestNodes(free, used + {node}, num)
  {
    FreeAdd(free, used, node, |free|);
    forall s: set<nat> | FreeIn(free, s, |free|) >= num ensures NodesIn(s, |free|) >= NodesIn(used + {node}, |free|) {
      if NodesIn(s, |free|) <= NodesIn(used, |free|) { TooFew(free, used, low, s); }
    }
  }

  predicate Distinct(gpus: seq<GPU>) {
    forall i, j {:trigger gpus[i], gpus[j]} :: 0 <= i < j < |gpus| ==> gpus[i] != gpus[j]
  }

  ghost function NodesOf(gpus: seq<GPU>): set<nat> { set g | g in gpus :: g.node }

  twostate lemma {:induction false} SameCount(gpus: seq<GPU>)
    requires forall g :: g in gpus ==> g.owner == old(g.owner)
    ensures FreeCount(gpus) == old(FreeCount(gpus))
  {
    if |gpus| > 0 { SameCount(gpus[..|gpus| - 1]); }
  }

  ghost function AllNodes(n: nat): (r: set<nat>)
    ensures forall i: nat :: i in r <==> i < n
  {
    if n == 0 then {} else AllNodes(n - 1) + {n - 1}
  }

  /** The second part of a heap entry. */
  function Tie(policy: Policy, owned: int): int {
    if policy.Pack? then -owned else owned
  }

  function Ties(policy: Policy, owned: seq<nat>): (ties: seq<int>)
    ensures |ties| == |owned| && forall i {:trigger ties[i]} :: 0 <= i < |owned| ==> ties[i] == Tie(policy, owned[i])
  {
    seq(|owned|, i requires 0 <= i < |owned| => Tie(policy, owned[i]))
  }

  function EntryOf(free: seq<nat>, ties: seq<int>, i: nat): Entry
    requires i < |free| == |ties|
  {
    Entry(free[i], ties[i], i)
  }

  /** Node `u` has more free GPUs, or as many and, of the owner's, more under pack and fewer under spread. */
  ghost predicate NotWorse(policy: Policy, free: seq<nat>, owned: seq<nat>, u: nat, v: nat)
    requires u < |free| == |owned| && v < |free|
  {
    && free[v] <= free[u]
    && (free[v] == free[u] && policy == Spread ==> owned[u] <= owned[v])
    && (free[v] == free[u] && policy == Pack ==> owned[u] >= owned[v])
    && (free[v] == free[u] && owned[v] == owned[u] ==> u <= v)
  }

  /** No node that is used is worse than one with free GPUs that is not. */
  ghost predicate ChosenFirst(policy: Policy, free: seq<nat>, owned: seq<nat>, used: set<nat>) {
    |free| == |owned| && forall u, v {:trigger u in used, free[v]} ::
      u in used && 0 <= v < |free| && v !in used && free[v] > 0 ==>
        u < |free| && NotWorse(policy, free, owned, u, v)
  }

  ghost predicate IsBest(policy: Policy, free: seq<nat>, owned: seq<nat>, h: nat) {
    h < |free| == |owned| && forall v {:trigger free[v]} :: 0 <= v < |free| && free[v] > 0 ==>
      NotWorse(policy, free, owned, h, v)
  }

  /** The order of the heap is the policy's. */
  lemma BeforeIs(policy: Policy, free: seq<nat>, owned: seq<nat>, u: nat, v: nat)
    requires u < |free| == |owned| && v < |free| && policy != Other
    ensures var ties := Ties(policy, owned);
            !Before(EntryOf(free, ties, v), EntryOf(free, ties, u)) <==> NotWorse(policy, free, owned, u, v)
  {
  }

  lemma ChosenByTies(policy: Policy, free: seq<nat>, owned: seq<nat>, used: set<nat>)
    requires |free| == |owned| && AheadOfRest(used, free, Ties(policy, owned))
    requires policy != Other || forall i :: 0 <= i < |free| ==> free[i] == 0
    ensures ChosenFirst(policy, free, owned, used)
  {
    forall u, v | u in used && 0 <= v < |free| && v !in used && free[v] > 0
      ensures u < |free| && NotWorse(policy, free, owned, u, v)
    {
      BeforeIs(policy, free, owned, u, v);
    }
  }

  lemma BestByTies(policy: Policy, free: seq<nat>, owned: seq<nat>, heap: seq<Entry>, head: Entry)
    requires |free| == |owned| && policy != Other && EntryOk(head, free, Ties(policy, owned))
    requires forall e :: e in heap ==> !Before(e, head)
    requires forall i {:trigger free[i]} :: 0 <= i < |free| && free[i] > 0 ==>
               Entry(free[i], Ties(policy, owned)[i], i) in heap
    ensures IsBest(policy, free, owned, head.node)
  {
    forall v | 0 <= v < |free| && free[v] > 0 ensures NotWorse(policy, free, owned, head.node, v) {
      BeforeIs(policy, free, owned, head.node, v);
    }
  }

  /** None of the nodes in `used` comes after a node on the heap. */
  ghost predicate AheadOf(used: set<nat>, heap: seq<Entry>, free: seq<nat>, ties: seq<int>) {
    |free| == |ties| && forall u, k {:trigger u in used, heap[k]} :: u in used && 0 <= k < |heap| ==>
      u < |free| && !Before(heap[k], EntryOf(free, ties, u))
  }

  lemma AheadPop(used: set<nat>, heap: seq<Entry>, free: seq<nat>, ties: seq<int>, at: nat)
    requires AheadOf(used, heap, free, ties) && at < |heap| && EntryOk(heap[at], free, ties)
    requires forall e :: e in heap ==> !Before(e, heap[at])
    ensures AheadOf(used + {heap[at].node}, heap[..at] + heap[at + 1..], free, ties)
  {
    var rest := heap[..at] + heap[at + 1..];
    forall u, k | u in used + {heap[at].node} && 0 <= k < |rest|
      ensures u < |free| && !Before(rest[k], EntryOf(free, ties, u))
    {
      var e := heap[if k < at then k else k + 1];
      assert rest[k] == e && e in heap;
    }
  }

  /** In the end, then, no used node comes after one that has not been used. */
  lemma AheadOfAll(used: set<nat>, heap: seq<Entry>, free: seq<nat>, ties: seq<int>)
    requires AheadOf(used, heap, free, ties) && HeapOk(heap, free, ties, used)
    ensures AheadOfRest(used, free, ties)
  {
    forall u, v | u in used && 0 <= v < |free| && v !in used && free[v] > 0
      ensures u < |free| && !Before(EntryOf(free, ties, v), EntryOf(free, ties, u))
    {
      assert OnHeap(heap, v);
      var k :| 0 <= k < |heap| && heap[k].node == v;
      assert EntryOk(heap[k], free, ties);
    }
  }

  ghost predicate AheadOfRest(used: set<nat>, free: seq<nat>, ties: seq<int>) {
    |free| == |ties| && forall u, v {:trigger u in used, free[v]} ::
      u in used && 0 <= v < |free| && v !in used && free[v] > 0 ==>
        u < |free| && !Before(EntryOf(free, ties, v), EntryOf(free, ties, u))
  }

  /** `gpus` were free before, when the owners were `was`, and belong to `o` now; nothing else has changed. */
  ghost predicate Taken(all: set<GPU>, was: map<GPU, Option<nat>>, gpus: seq<GPU>, o: nat)
    reads all
  {
    && Distinct(gpus) && was.Keys == all
    && (forall g {:trigger g in gpus} :: g in gpus ==> g in all && was[g] == None)
    && (forall g {:trigger g in all} :: g in all ==> g.owner == if g in gpus then Some(o) else was[g])
  }

  /** In particular one node is enough if it has `num` free GPUs. */
  lemma OneNodeIfPossible(free: seq<nat>, used: set<nat>, num: int, i: nat)
    requires FewestNodes(free, used, num) && i < |free| && free[i] >= num
    ensures NodesIn(used, |free|) <= 1
  {
    FreeOfNone(free, |free|);
    FreeAdd(free, {}, i, |free|);
    assert FreeIn(free, {} + {i}, |free|) >= num;
  }

  class Resource {
    /** The GPUs by node; the nodes are numbered in the order of their names. */
    const nodes: seq<seq<GPU>>
    ghost const all: set<GPU>

    ghost predicate Valid() {
      && (forall i {:trigger NodeOk(i)} :: 0 <= i < |nodes| ==> NodeOk(i))
      && (forall g {:trigger g in all} :: g in all ==> g.node < |nodes| && g in nodes[g.node])
    }

    ghost predicate NodeOk(i: nat)
      requires i < |nodes|
    {
      Distinct(nodes[i]) && forall g :: g in nodes[i] ==> g.node == i && g in all
    }

    constructor (nodes: seq<seq<GPU>>)
      requires forall i :: 0 <= i < |nodes| ==> Distinct(nodes[i]) && forall g :: g in nodes[i] ==> g.node == i
      ensures Valid() && this.nodes == nodes
    {
      this.nodes := nodes;
      all := set i, j | 0 <= i < |nodes| && 0 <= j < |nodes[i]| :: nodes[i][j];
    }

    /** `free` and `owned` count the free GPUs of each node and those of `o`. */
    ghost predicate Describes(free: seq<nat>, owned: seq<nat>, o: nat)
      requires Valid()
      reads all
    {
      && |free| == |nodes| && |owned| == |nodes|
      && forall i {:trigger free[i]} :: 0 <= i < |nodes| ==> DescribesNode(i, free[i], owned[i], o)
    }

    ghost predicate DescribesNode(i: nat, free: nat, owned: nat, o: nat)
      requires Valid() && i < |nodes|
      reads all
    {
      assert NodeOk(i);
      free == FreeCount(nodes[i]) && owned == OwnedCount(nodes[i], o)
    }

    /** num_free_gpus, and the counts that the heap's entries are made of. */
    method Measure(o: nat) returns (free: seq<nat>, owned: seq<nat>, total: nat)
      requires Valid()
      ensures Describes(free, owned, o) && total == FreeIn(free, AllNodes(|free|), |free|)
    {
      free, owned, total := [], [], 0;
      for i := 0 to |nodes|
        invariant |free| == i && |owned| == i && total == FreeIn(free, AllNodes(|nodes|), i)
        invariant forall k {:trigger free[k]} :: 0 <= k < i ==> DescribesNode(k, free[k], owned[k], o)
      {
        var f, w := CountNode(nodes[i], o);
        FreePrefix(free, f, AllNodes(|nodes|), i);
        free := free + [f];
        owned := owned + [w];
        total := total + f;
      }
    }

    method CountNode(gpus: seq<GPU>, o: nat) returns (free: nat, owned: nat)
      ensures free == FreeCount(gpus) && owned == OwnedCount(gpus, o)
    {
      free, owned := 0, 0;
      for i := 0 to |gpus|
        invariant free == FreeCount(gpus[..i]) && owned == OwnedCount(gpus[..i], o)
      {
        assert gpus[..i + 1][..i] == gpus[..i];
        if gpus[i].owner == None { free := free + 1; }
        if gpus[i].owner == Some(o) { owned := owned + 1; }
      }
      assert gpus[..|gpus|] == gpus;
    }

    /** The nodes that have not been used have as many free GPUs as before. */
    ghost predicate StillFree(free: seq<nat>, used: set<nat>)
      requires Valid()
      reads all
    {
      |free| == |nodes| && forall i {:trigger free[i]} :: 0 <= i < |nodes| && i !in used ==>
          NodeOk(i) && free[i] == FreeCount(nodes[i])
    }

    /** On each node, it is the first free GPUs that are taken. */
    ghost predicate InOrder(gpus: seq<GPU>, was: map<GPU, Option<nat>>) {
      forall n {:trigger nodes[n]} :: 0 <= n < |nodes| ==> FirstOnes(nodes[n], gpus, was)
    }

    lemma InOrderMore(gpus: seq<GPU>, taken: seq<GPU>, node: nat, was: map<GPU, Option<nat>>,
                      now: map<GPU, Option<nat>>)
      requires Valid() && InOrder(gpus, was) && node < |nodes| && node !in NodesOf(gpus)
      requires (forall g :: g in taken ==> g in nodes[node]) && FirstOnes(nodes[node], taken, now)
      requires forall g :: g in nodes[node] && g in was ==> g in now && now[g] == was[g]
      ensures InOrder(gpus + taken, was)
    {
      assert NodeOk(node) && forall g :: g in gpus ==> g.node in NodesOf(gpus);
      forall n | 0 <= n < |nodes| ensures FirstOnes(nodes[n], gpus + taken, was) {
        assert NodeOk(n) && FirstOnes(nodes[n], gpus, was);
        forall g | g in nodes[n] ensures g in gpus + taken <==> if n == node then g in taken else g in gpus {
          assert g.node == n;
        }
      }
    }

    /** One turn of the loop of allocate: free GPUs of the node at the head of the heap. */
    method TakeNext(num: nat, o: nat, gpus: seq<GPU>, ghost used: set<nat>, heap: seq<Entry>, ghost low: nat,
                    ghost free: seq<nat>, ghost ties: seq<int>, ghost was: map<GPU, Option<nat>>)
      returns (gpus': seq<GPU>, rest: seq<Entry>, ghost first: Entry)
      requires Valid() && Taken(all, was, gpus, o) && used == NodesOf(gpus) && StillFree(free, used)
      requires InOrder(gpus, was)
      requires |heap| > 0 && HeapOk(heap, free, ties, used) && Split(free, used, low) && AheadOf(used, heap, free, ties)
      requires |gpus| == FreeIn(free, used, |free|) < num
      modifies all
      ensures Taken(all, was, gpus', o) && NodesOf(gpus') == used + {first.node} && StillFree(free, used + {first.node})
      ensures InOrder(gpus', was)
      ensures |rest| < |heap| && HeapOk(rest, free, ties, used + {first.node})
      ensures AheadOf(used + {first.node}, rest, free, ties)
      ensures |gpus| < |gpus'| <= num && gpus'[..|gpus|] == gpus && gpus'[|gpus|].node == first.node
      ensures first in heap && forall e :: e in heap ==> !Before(e, first)
      ensures |gpus'| < num ==>
                Split(free, used + {first.node}, first.free) && |gpus'| == FreeIn(free, used + {first.node}, |free|)
      ensures |gpus'| == num ==> FewestNodes(free, used + {first.node}, num)
    {
      ghost var at;
      var e;
      e, rest, at := PopFirst(heap);
      first := e;
      HeapPop(heap, free, ties, used, at);
      SplitPop(heap, free, ties, used, low, first);
      AheadPop(used, heap, free, ties, at);
      LastNode(free, used, low, first.node, num);
      FreeAdd(free, used, first.node, |free|);
      gpus' := TakeFrom(e.node, num, o, gpus, used, free, was);
    }

    method TakeFrom(node: nat, num: nat, o: nat, gpus: seq<GPU>, ghost used: set<nat>, ghost free: seq<nat>,
            ghost was: map<GPU, Option<nat>>)
      returns (gpus': seq<GPU>)
      requires Valid() && Taken(all, was, gpus, o) && used == NodesOf(gpus) && StillFree(free, used)
      requires InOrder(gpus, was)
      requires node < |nodes| && node !in used && free[node] > 0 && |gpus| < num
      modifies all
      ensures Taken(all, was, gpus', o) && NodesOf(gpus') == used + {node} && StillFree(free, used + {node})
      ensures InOrder(gpus', was)
      ensures |gpus'| == if |gpus| + free[node] < num then |gpus| + free[node] else num
      ensures gpus'[..|gpus|] == gpus && gpus'[|gpus|].node == node
    {
      assert NodeOk(node);
      assert free[node] == FreeCount(nodes[node]);
      var taken := TakeFree(nodes[node], num - |gpus|, o);
      gpus' := gpus + taken;
      InOrderMore(gpus, taken, node, was, old(map g | g in nodes[node] :: g.owner));
      forall i | 0 <= i < |nodes| && i !in used + {node} ensures NodeOk(i) && free[i] == FreeCount(nodes[i]) {
        assert NodeOk(i);
        SameCount(nodes[i]);
      }
      assert gpus'[|gpus|] == taken[0] && taken[0] in taken;
      forall g | g in taken ensures g.node == node { assert g in nodes[node]; }
      assert forall g {:trigger g in gpus} :: g in gpus ==> g.node in NodesOf(gpus);
      DistinctTogether(gpus, taken);
      Together(gpus, taken, node);
    }

    /** The loop of allocate: node after node in the order of the heap, until there are enough. */
    method TakeNodes(num: nat, o: nat, heap0: seq<Entry>, ghost free: seq<nat>, ghost ties: seq<int>)
      returns (gpus: seq<GPU>, ghost head: Entry)
      requires Valid() && StillFree(free, {}) && HeapOk(heap0, free, ties, {})
      requires num <= FreeIn(free, AllNodes(|free|), |free|)
      modifies all
      ensures |gpus| == num && Taken(all, old(map g | g in all :: g.owner), gpus, o)
      ensures FewestNodes(free, NodesOf(gpus), num) && AheadOfRest(NodesOf(gpus), free, ties)
      ensures InOrder(gpus, old(map g | g in all :: g.owner))
      ensures num > 0 ==> head in heap0 && gpus[0].node == head.node && forall e :: e in heap0 ==> !Before(e, head)
    {
      ghost var was := map g | g in all :: g.owner;
      ghost var low := FreeIn(free, AllNodes(|free|), |free|);
      gpus := [];
      var heap := heap0;
      head := Entry(0, 0, 0);
      InitialSplit(free, low);
      assert NodesOf(gpus) == {};
      while |gpus| < num && |heap| > 0
        invariant |gpus| <= num && Taken(all, was, gpus, o) && StillFree(free, NodesOf(gpus)) && InOrder(gpus, was)
        invariant HeapOk(heap, free, ties, NodesOf(gpus)) && AheadOf(NodesOf(gpus), heap, free, ties)
        invariant |gpus| < num ==> Split(free, NodesOf(gpus), low) && |gpus| == FreeIn(free, NodesOf(gpus), |free|)
        invariant |gpus| == num ==> FewestNodes(free, NodesOf(gpus), num)
        invariant |gpus| == 0 ==> heap == heap0
        invariant |gpus| > 0 ==>
                    head in heap0 && gpus[0].node == head.node && forall e :: e in heap0 ==> !Before(e, head)
        decreases |heap|
      {
        ghost var first;
        ghost var start := |gpus| == 0;
        gpus, heap, first := TakeNext(num, o, gpus, NodesOf(gpus), heap, low, free, ties, was);
        low := first.free;
        if start { head := first; }
      }
      HeapEmpty(heap, free, ties, NodesOf(gpus));
      AheadOfAll(NodesOf(gpus), heap, free, ties);
    }

    /**
     allocate. No node that is used comes after one that is not: it has more free GPUs, or as many and, of the
     owner's, at least as many under pack and at most as many under spread. The first GPU's node comes first.
    */
    method Allocate(num: int, o: nat, mustColocate: bool, policy: Policy)
      returns (r: Result, ghost free: seq<nat>, ghost owned: seq<nat>)
      requires Valid()
      modifies all
      ensures old(Describes(free, owned, o))
      ensures var total := FreeIn(free, AllNodes(|free|), |free|);
              && (r == NotEnoughGPUs <==> num > total)
              && (r == UnknownPolicy <==> num <= total && policy == Other && total > 0)
              && (r == IndexError <==> num <= total && total == 0 && mustColocate)
              && (r == CannotColocate <==>
                  num <= total && policy != Other && total > 0 && mustColocate
                  && forall i :: 0 <= i < |free| ==> free[i] < num)
      ensures !r.Allocated? ==> forall g :: g in all ==> g.owner == old(g.owner)
      ensures r.Allocated? <==> r !in {NotEnoughGPUs, UnknownPolicy, IndexError, CannotColocate} && num >= 0
      ensures r.Allocated? ==> |r.gpus| == num && Taken(all, old(map g | g in all :: g.owner), r.gpus, o)
                               && InOrder(r.gpus, old(map g | g in all :: g.owner))
      ensures r.Allocated? ==> FewestNodes(free, NodesOf(r.gpus), num)
      ensures r.Allocated? ==> ChosenFirst(policy, free, owned, NodesOf(r.gpus))
      ensures r.Allocated? && num > 0 ==> IsBest(policy, free, owned, r.gpus[0].node)
    {
      var counts, owns, total := Measure(o);
      free, owned := counts, owns;
      if num > total {
        return NotEnoughGPUs, free, owned;
      }
      if policy == Other && total > 0 {
        return UnknownPolicy, free, owned;
      }
      var ties := Ties(policy, owns);
      var heap := MakeHeap(counts, ties);
      if mustColocate {
        if |heap| == 0 {
          return IndexError, free, owned;
        }
        var first, rest, at := PopFirst(heap);
        HeadHasMost(heap, free, ties, first);
        if first.free < num {
          return CannotColocate, free, owned;
        }
      }
      if num < 0 {
        return AssertionError, free, owned;
      }
      if policy == Other { NoneFree(free, AllNodes(|free|), |free|); }
      var gpus;
      ghost var head;
      gpus, head := TakeNodes(num, o, heap, free, ties);
      AllOnHeap(heap, free, ties, head);
      ChosenByTies(policy, free, owned, NodesOf(gpus));
      if num > 0 { BestByTies(policy, free, owned, heap, head); }
      r := Allocated(gpus);
    }
  }

  lemma {:induction false} FreePrefix(free: seq<nat>, f: nat, s: set<nat>, n: nat)
    requires n <= |free|
    ensures FreeIn(free + [f], s, n) == FreeIn(free, s, n)
  {
    if n > 0 { FreePrefix(free, f, s, n - 1); }
  }

  lemma DistinctTogether(gpus: seq<GPU>, taken: seq<GPU>)
    requires Distinct(gpus) && Distinct(taken) && forall g :: g in taken ==> g !in gpus
    ensures Distinct(gpus + taken)
  {
    var all := gpus + taken;
    forall i, j | 0 <= i < j < |all| ensures all[i] != all[j] {
      if i < |gpus| <= j { assert taken[j - |gpus|] in taken && gpus[i] in gpus; }
    }
  }

  lemma Together(gpus: seq<GPU>, taken: seq<GPU>, node: nat)
    requires |taken| > 0 && forall g :: g in taken ==> g.node == node
    ensures NodesOf(gpus + taken) == NodesOf(gpus) + {node}
  {
    assert taken[0] in gpus + taken;
    forall i | i in NodesOf(gpus) ensures i in NodesOf(gpus + taken) {
      var g :| g in gpus && g.node == i;
      assert g in gpus + taken;
    }
  }

  lemma InitialSplit(free: seq<nat>, low: nat)
    requires low == FreeIn(free, AllNodes(|free|), |free|)
    ensures Split(free, {}, low) && FreeIn(free, {}, |free|) == 0 && FewestNodes(free, {}, 0)
  {
    FreeOfNone(free, |free|);
    forall i | 0 <= i < |free| ensures free[i] <= low { FreeAtLeast(free, AllNodes(|free|), |free|, i); }
  }

  lemma {:induction false} NoneFree(free: seq<nat>, s: set<nat>, n: nat)
    requires n <= |free| && FreeIn(free, s, n) == 0 && forall i: nat :: i < n ==> i in s
    ensures forall i :: 0 <= i < n ==> free[i] == 0
  {
    if n > 0 { NoneFree(free, s, n - 1); }
  }

  /** An empty heap means that all free GPUs are on the used nodes. */
  lemma HeapEmpty(heap: seq<Entry>, free: seq<nat>, ties: seq<int>, used: set<nat>)
    requires HeapOk(heap, free, ties, used)
    ensures heap == [] ==> FreeIn(free, AllNodes(|free|), |free|) <= FreeIn(free, used, |free|)
  {
    if heap == [] {
      forall i | 0 <= i < |free| && free[i] > 0 ensures i in used {
        assert !OnHeap(heap, i);
      }
      FreeBelow(free, AllNodes(|free|), used, |free|);
    }
  }

  lemma AllOnHeap(heap: seq<Entry>, free: seq<nat>, ties: seq<int>, head: Entry)
    requires HeapOk(heap, free, ties, {})
    ensures forall i {:trigger free[i]} :: 0 <= i < |free| && free[i] > 0 ==> Entry(free[i], ties[i], i) in heap
    ensures head in heap ==> EntryOk(head, free, ties)
  {
    forall i | 0 <= i < |free| && free[i] > 0 ensures Entry(free[i], ties[i], i) in heap {
      assert OnHeap(heap, i);
      var k :| 0 <= k < |heap| && heap[k].node == i;
      assert EntryOk(heap[k], free, ties);
    }
    if head in heap {
      var k :| 0 <= k < |heap| && heap[k] == head;
    }
  }

  lemma HeadHasMost(heap: seq<Entry>, free: seq<nat>, ties: seq<int>, first: Entry)
    requires HeapOk(heap, free, ties, {}) && first in heap && forall e :: e in heap ==> !Before(e, first)
    ensures EntryOk(first, free, ties) && forall i {:trigger free[i]} :: 0 <= i < |free| ==> free[i] <= first.free
  {
    AllOnHeap(heap, free, ties, first);
    forall i | 0 <= i < |free| && free[i] > 0 ensures free[i] <= first.free {
      assert !Before(Entry(free[i], ties[i], i), first);
    }
  }

  /** The nodes with free GPUs, each with its place in the order. */
  method MakeHeap(free: seq<nat>, ties: seq<int>) returns (heap: seq<Entry>)
    requires |free| == |ties|
    ensures HeapOk(heap, free, ties, {})
    ensures heap == [] <==> FreeIn(free, AllNodes(|free|), |free|) == 0
  {
    heap := [];
    ghost var all := AllNodes(|free|);
    for i := 0 to |free|
      invariant HeapUpTo(heap, free, ties, i)
      invariant heap == [] <==> FreeIn(free, all, i) == 0
    {
      HeapGrows(heap, free, ties, i);
      if free[i] > 0 {
        heap := heap + [Entry(free[i], ties[i], i)];
      }
    }
  }

  /** One entry for each of the first `i` nodes with free GPUs. */
  ghost predicate HeapUpTo(heap: seq<Entry>, free: seq<nat>, ties: seq<int>, i: nat)
    requires |free| == |ties| && i <= |free|
  {
    && (forall k {:trigger heap[k]} :: 0 <= k < |heap| ==> EntryOk(heap[k], free, ties) && heap[k].node < i)
    && (forall j, k {:trigger heap[j], heap[k]} :: 0 <= j < k < |heap| ==> heap[j].node != heap[k].node)
    && (forall k {:trigger OnHeap(heap, k)} :: 0 <= k < i && free[k] > 0 ==> OnHeap(heap, k))
  }

  lemma HeapGrows(heap: seq<Entry>, free: seq<nat>, ties: seq<int>, i: nat)
    requires |free| == |ties| && i < |free| && HeapUpTo(heap, free, ties, i)
    ensures HeapUpTo(if free[i] > 0 then heap + [Entry(free[i], ties[i], i)] else heap, free, ties, i + 1)
  {
    if free[i] > 0 {
      var e := Entry(free[i], ties[i], i);
      forall k | 0 <= k <= i && free[k] > 0 ensures OnHeap(heap + [e], k) {
        PushedOn(heap, e, k);
      }
      PushedLast(heap, e, free, ties, i);
    }
  }

  lemma PushedLast(heap: seq<Entry>, e: Entry, free: seq<nat>, ties: seq<int>, i: nat)
    requires |free| == |ties| && i < |free| && EntryOk(e, free, ties) && e.node == i
    requires forall k {:trigger heap[k]} :: 0 <= k < |heap| ==> EntryOk(heap[k], free, ties) && heap[k].node < i
    requires forall j, k {:trigger heap[j], heap[k]} :: 0 <= j < k < |heap| ==> heap[j].node != heap[k].node
    ensures forall k {:trigger (heap + [e])[k]} :: 0 <= k < |heap + [e]| ==>
              EntryOk((heap + [e])[k], free, ties) && (heap + [e])[k].node <= i
    ensures forall j, k {:trigger (heap + [e])[j], (heap + [e])[k]} :: 0 <= j < k < |heap + [e]| ==>
              (heap + [e])[j].node != (heap + [e])[k].node
  {
  }

  lemma PushedOn(heap: seq<Entry>, e: Entry, k: nat)
    ensures OnHeap(heap, k) || e.node == k ==> OnHeap(heap + [e], k)
  {
    if e.node == k {
      assert (heap + [e])[|heap|].node == k;
    } else if OnHeap(heap, k) {
      var a :| 0 <= a < |heap| && heap[a].node == k;
      assert (heap + [e])[a].node == k;
    }
  }
}
