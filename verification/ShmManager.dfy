/**
 The slot allocator of a sidecar's shared memory slab, the shards of one buffer, and the back-pressure
 that makes callers wait for a free window.
*/
module ShmManager {
  import opened ModArithmetic

  /** `count` consecutive slots from `first` on. */
  datatype Window = Window(first: nat, count: nat)
  {
    predicate Has(i: int) { first <= i < first + count }

    predicate Apart(w: Window) { first + count <= w.first || w.first + w.count <= first }
  }

  predicate IsFree(occ: seq<int>, w: Window) {
    w.first + w.count <= |occ| && forall i :: w.first <= i < w.first + w.count ==> occ[i] == 0
  }

  predicate IsTaken(occ: seq<int>, w: Window) {
    w.first + w.count <= |occ| && forall i :: w.first <= i < w.first + w.count ==> occ[i] == 1
  }

  ghost predicate SomeFree(occ: seq<int>, count: nat) {
    exists first: nat :: IsFree(occ, Window(first, count))
  }

  ghost predicate IsLowest(occ: seq<int>, w: Window) {
    IsFree(occ, w) && forall first: nat :: first < w.first ==> !IsFree(occ, Window(first, w.count))
  }

  function Mark(occ: seq<int>, w: Window, v: int): (r: seq<int>)
    ensures |r| == |occ|
  {
    seq(|occ|, i requires 0 <= i < |occ| => if w.Has(i) then v else occ[i])
  }

  /** sum(occupancy) */
  function Used(occ: seq<int>): int {
    if |occ| == 0 then 0 else Used(occ[..|occ| - 1]) + occ[|occ| - 1]
  }

  function Total(live: seq<Window>): nat {
    if |live| == 0 then 0 else Total(live[..|live| - 1]) + live[|live| - 1].count
  }

  lemma {:induction false} UsedAfterTake(occ: seq<int>, w: Window)
    requires IsFree(occ, w)
    ensures Used(Mark(occ, w, 1)) == Used(occ) + w.count
    decreases |occ|
  {
    var n := |occ| - 1;
    if w.count == 0 {
      assert Mark(occ, w, 1) == occ;
    } else if w.first + w.count == |occ| {
      var w' := Window(w.first, w.count - 1);
      assert Mark(occ, w, 1)[..n] == Mark(occ[..n], w', 1);
      UsedAfterTake(occ[..n], w');
    } else {
      assert Mark(occ, w, 1)[..n] == Mark(occ[..n], w, 1);
      UsedAfterTake(occ[..n], w);
    }
  }

  lemma {:induction false} TotalWithout(live: seq<Window>, k: nat)
    requires k < |live|
    ensures Total(Without(live, k)) == Total(live) - live[k].count
    decreases |live|
  {
    var n := |live| - 1;
    if k < n {
      TotalWithout(live[..n], k);
      assert Without(live, k)[..n - 1] == Without(live[..n], k);
    } else {
      assert Without(live, k) == live[..n];
    }
  }

  function Without(live: seq<Window>, k: nat): seq<Window>
    requires k < |live|
  {
    live[..k] + live[k + 1..]
  }

  lemma WithoutOne(live: seq<Window>, k: nat)
    requires k < |live|
    ensures multiset(Without(live, k)) == multiset(live) - multiset{live[k]}
  {
    assert live == live[..k] + [live[k]] + live[k + 1..];
  }

  /** The live buffers are disjoint, and the occupied slots are exactly theirs. */
  ghost predicate LiveOk(occ: seq<int>, live: seq<Window>) {
    && AllTaken(occ, live) && AllApart(live) && AllCovered(occ, live) && Used(occ) == Total(live)
  }

  ghost predicate AllTaken(occ: seq<int>, live: seq<Window>) {
    forall k :: 0 <= k < |live| ==> live[k].count > 0 && IsTaken(occ, live[k])
  }

  ghost predicate AllApart(live: seq<Window>) {
    forall j, k :: 0 <= j < k < |live| ==> live[j].Apart(live[k])
  }

  ghost predicate AllCovered(occ: seq<int>, live: seq<Window>) {
    forall i :: 0 <= i < |occ| ==> occ[i] == 0 || (occ[i] == 1 && Covered(live, i))
  }

  ghost predicate Covered(live: seq<Window>, i: int) {
    exists k :: 0 <= k < |live| && live[k].Has(i)
  }

  lemma LiveAfterAllocate(occ: seq<int>, live: seq<Window>, w: Window)
    requires LiveOk(occ, live) && w.count > 0 && IsFree(occ, w)
    ensures LiveOk(Mark(occ, w, 1), live + [w])
  {
    var occ', live' := Mark(occ, w, 1), live + [w];
    UsedAfterTake(occ, w);
    assert live'[..|live|] == live;
    forall k | 0 <= k < |live| ensures live[k].Apart(w) && IsTaken(occ', live[k]) {
      FreeApartFromTaken(occ, w, live[k]);
    }
    forall i | 0 <= i < |occ'| ensures occ'[i] == 0 || (occ'[i] == 1 && Covered(live', i)) {
      if w.Has(i) {
        assert live'[|live|].Has(i);
      } else if occ[i] != 0 {
        var k :| 0 <= k < |live| && live[k].Has(i);
        assert live'[k].Has(i);
      }
    }
  }

  lemma FreeApartFromTaken(occ: seq<int>, w: Window, t: Window)
    requires IsFree(occ, w) && IsTaken(occ, t) && w.count > 0 && t.count > 0
    ensures t.Apart(w)
  {
    var i := if w.first < t.first then t.first else w.first;
    assert w.Has(i) ==> occ[i] == 0;
    assert t.Has(i) ==> occ[i] == 1;
  }

  lemma LiveAfterFree(occ: seq<int>, live: seq<Window>, k: nat)
    requires LiveOk(occ, live) && k < |live|
    ensures LiveOk(Mark(occ, live[k], 0), Without(live, k))
    ensures IsFree(Mark(occ, live[k], 0), live[k])
  {
    var w, occ' := live[k], Mark(occ, live[k], 0);
    assert IsTaken(occ, w) && Mark(occ', w, 1) == occ;
    UsedAfterTake(occ', w);
    TotalWithout(live, k);
    assert live[k].count > 0 && IsTaken(occ, live[k]);
    OthersTaken(occ, live, k);
    OthersCover(occ, live, k);
  }

  lemma OthersTaken(occ: seq<int>, live: seq<Window>, k: nat)
    requires k < |live| && AllTaken(occ, live) && AllApart(live)
    ensures AllTaken(Mark(occ, live[k], 0), Without(live, k)) && AllApart(Without(live, k))
  {
    var live' := Without(live, k);
    forall j | 0 <= j < |live'| ensures live'[j].count > 0 && IsTaken(Mark(occ, live[k], 0), live'[j]) {
      var j' := if j < k then j else j + 1;
      assert live'[j] == live[j'] && IsTaken(occ, live[j']);
      assert live[k].Apart(live[j']) || live[j'].Apart(live[k]);
    }
  }

  lemma OthersCover(occ: seq<int>, live: seq<Window>, k: nat)
    requires k < |live| && AllCovered(occ, live) && IsTaken(occ, live[k])
    ensures AllCovered(Mark(occ, live[k], 0), Without(live, k))
  {
    var occ', live' := Mark(occ, live[k], 0), Without(live, k);
    forall i | 0 <= i < |occ'| ensures occ'[i] == 0 || (occ'[i] == 1 && Covered(live', i)) {
      if !live[k].Has(i) && occ[i] != 0 {
        var j :| 0 <= j < |live| && live[j].Has(i);
        assert live'[if j < k then j else j - 1] == live[j];
      }
    }
  }

  /** Taking slots never makes a window free. */
  lemma StillNoneFree(occ: seq<int>, w: Window, count: nat)
    requires SomeFree(Mark(occ, w, 1), count)
    ensures SomeFree(occ, count)
  {
    var first: nat :| IsFree(Mark(occ, w, 1), Window(first, count));
    forall i | first <= i < first + count ensures occ[i] == 0 {
      assert Mark(occ, w, 1)[i] == 0;
    }
    assert IsFree(occ, Window(first, count));
  }

  datatype Allocation =
    | Allocated(w: Window)
    | NoRoom       // None
    | ValueError

  /** The sizes for which allocate raises ValueError. */
  predicate IsRefused(shmSize: nat, slotSize: nat, size: int)
    requires slotSize > 0
  {
    size > shmSize || size < slotSize || size % slotSize != 0
  }

  predicate IsSlots(size: int, slotSize: nat, k: nat) { size == k * slotSize }

  /** allocate accepts exactly the sizes of the windows of one slot or more that an empty slab has room for. */
  lemma AcceptedIff(shmSize: nat, slotSize: nat, size: int)
    requires slotSize > 0
    ensures !IsRefused(shmSize, slotSize, size) <==>
            exists k: nat :: 1 <= k <= shmSize / slotSize && IsSlots(size, slotSize, k)
    ensures !IsRefused(shmSize, slotSize, size) ==> 1 <= size / slotSize <= shmSize / slotSize
  {
    if !IsRefused(shmSize, slotSize, size) {
      AtLeastOne(size, slotSize);
      QuotientGrows(size, shmSize, slotSize);
      assert IsSlots(size, slotSize, size / slotSize);
    }
    forall k: nat | 1 <= k <= shmSize / slotSize && IsSlots(size, slotSize, k)
      ensures !IsRefused(shmSize, slotSize, size)
    {
      WholeSlots(shmSize, slotSize, k);
    }
  }

  lemma QuotientGrows(a: nat, b: nat, n: nat)
    requires n > 0 && a <= b
    ensures a / n <= b / n
  {
    if a / n > b / n {
      Multiples(b / n + 1, a / n, n);
    }
  }

  lemma Multiples(j: nat, k: nat, n: nat)
    requires j <= k
    ensures j * n <= k * n
  {
    assert k * n == j * n + (k - j) * n;
  }

  lemma WholeSlots(shmSize: nat, slotSize: nat, k: nat)
    requires slotSize > 0 && 1 <= k <= shmSize / slotSize
    ensures slotSize <= k * slotSize <= shmSize && k * slotSize % slotSize == 0
  {
    Multiples(1, k, slotSize);
    Multiples(k, shmSize / slotSize, slotSize);
    DivModUnique(k * slotSize, k, 0, slotSize);
  }

  class SharedMemoryManager {
    const shmSize: nat
    const slotSize: nat
    const numSlots: nat
    const occupancy: array<int>
    ghost var live: seq<Window>

    ghost predicate Valid()
      reads this, occupancy
    {
      slotSize > 0 && numSlots == shmSize / slotSize && occupancy.Length == numSlots && LiveOk(occupancy[..], live)
    }

    constructor (shmSize: nat, slotSize: nat)
      requires slotSize > 0
      ensures Valid() && fresh(occupancy) && live == []
      ensures this.shmSize == shmSize && this.slotSize == slotSize && IsFree(occupancy[..], Window(0, numSlots))
    {
      this.shmSize, this.slotSize, numSlots := shmSize, slotSize, shmSize / slotSize;
      occupancy := new int[shmSize / slotSize](_ => 0);
      live := [];
      new;
      NothingUsed(occupancy[..]);
    }

    predicate Refuses(size: int)
      requires slotSize > 0
    {
      IsRefused(shmSize, slotSize, size)
    }

    /** The loop that sets the slots of a buffer. */
    method Fill(w: Window, v: int)
      requires w.first + w.count <= occupancy.Length
      modifies occupancy
      ensures occupancy[..] == Mark(old(occupancy[..]), w, v)
    {
      for j := w.first to w.first + w.count
        invariant occupancy[..] == Mark(old(occupancy[..]), Window(w.first, j - w.first), v)
      {
        occupancy[j] := v;
      }
    }

    /** The lowest window of size/slotSize free slots; None exactly when there is none. */
    method Allocate(size: int) returns (r: Allocation)
      requires Valid()
      modifies this`live, occupancy
      ensures Valid()
      ensures r == ValueError <==> Refuses(size)
      ensures r == NoRoom <==> !Refuses(size) && !SomeFree(old(occupancy[..]), size / slotSize)
      ensures r.Allocated? ==> r.w.count == size / slotSize && IsLowest(old(occupancy[..]), r.w)
      ensures occupancy[..] == if r.Allocated? then Mark(old(occupancy[..]), r.w, 1) else old(occupancy[..])
      ensures live == if r.Allocated? then old(live) + [r.w] else old(live)
    {
      if size > shmSize || size < slotSize || size % slotSize != 0 {
        return ValueError;
      }
      var needed := size / slotSize;
      AtLeastOne(size, slotSize);
      var cur := 0;
      ghost var occ := occupancy[..];
      for i := 0 to numSlots
        invariant cur < needed && IsRun(occ, i, cur) && NoneBefore(occ, i, needed)
        invariant occupancy[..] == occ && live == old(live)
      {
        ScanStep(occ, i, cur, needed);
        if occupancy[i] == 0 {
          cur := cur + 1;
          if cur == needed {
            var w := Window(i - needed + 1, needed);
            LiveAfterAllocate(occ, live, w);
            Fill(w, 1);
            live := live + [w];
            return Allocated(w);
          }
        } else {
          cur := 0;
        }
      }
      r := NoRoom;
    }

    /** free, for a buffer that is live. */
    method Free(w: Window)
      requires Valid() && w in live
      modifies this`live, occupancy
      ensures Valid() && IsFree(occupancy[..], w)
      ensures occupancy[..] == Mark(old(occupancy[..]), w, 0)
      ensures multiset(live) == multiset(old(live)) - multiset{w}
    {
      ghost var k :| 0 <= k < |live| && live[k] == w;
      LiveAfterFree(occupancy[..], live, k);
      WithoutOne(live, k);
      Fill(w, 0);
      live := Without(live, k);
    }

    /** free_slots and used_slots */
    method FreeSlots() returns (free: int, used: int)
      requires Valid()
      ensures used == Total(live) && free + used == numSlots
    {
      used := 0;
      for i := 0 to numSlots
        invariant used == Used(occupancy[..i])
      {
        assert occupancy[..i + 1][..i] == occupancy[..i];
        used := used + occupancy[i];
      }
      assert occupancy[..numSlots] == occupancy[..];
      free := numSlots - used;
    }
  }

  lemma {:induction false} NothingUsed(occ: seq<int>)
    requires forall i :: 0 <= i < |occ| ==> occ[i] == 0
    ensures Used(occ) == 0
  {
    if |occ| > 0 { NothingUsed(occ[..|occ| - 1]); }
  }

  lemma AtLeastOne(size: int, slotSize: nat)
    requires 0 < slotSize <= size
    ensures size / slotSize >= 1
  {
  }

  /** Slots i-cur..i are free and the one before them, if there is one, is not. */
  predicate IsRun(occ: seq<int>, i: nat, cur: nat) {
    cur <= i <= |occ| && IsFree(occ, Window(i - cur, cur)) && (i > cur ==> occ[i - cur - 1] != 0)
  }

  ghost predicate NoneBefore(occ: seq<int>, i: nat, needed: nat) {
    forall first: nat :: first + needed <= i ==> !IsFree(occ, Window(first, needed))
  }

  lemma ScanStep(occ: seq<int>, i: nat, cur: nat, needed: nat)
    requires i < |occ| && cur < needed && IsRun(occ, i, cur) && NoneBefore(occ, i, needed)
    ensures occ[i] == 0 ==> IsRun(occ, i + 1, cur + 1)
    ensures occ[i] == 0 && cur + 1 == needed ==> IsLowest(occ, Window(i + 1 - needed, needed))
    ensures occ[i] != 0 ==> IsRun(occ, i + 1, 0)
    ensures occ[i] != 0 || cur + 1 < needed ==> NoneBefore(occ, i + 1, needed)
  {
    if occ[i] != 0 || cur + 1 < needed {
      forall first: nat | first + needed == i + 1 ensures !IsFree(occ, Window(first, needed)) {
        var at := if occ[i] != 0 then i else i - cur - 1;
        assert Window(first, needed).Has(at);
      }
    }
  }

  // ---- shards of one buffer ----

  datatype Shard = Shard(offset: nat, length: nat)

  /** Consecutive ranges that cover 0..size. */
  predicate Tiles(shards: seq<Shard>, size: nat) {
    if |shards| == 0 then size == 0
    else var s := shards[|shards| - 1]; s.offset + s.length == size && Tiles(shards[..|shards| - 1], s.offset)
  }

  /** Every element belongs to exactly one shard. */
  lemma {:induction false} ExactlyOneShard(shards: seq<Shard>, size: nat, x: nat) returns (i: nat)
    requires Tiles(shards, size) && x < size
    ensures i < |shards| && shards[i].offset <= x < shards[i].offset + shards[i].length
    ensures forall j :: 0 <= j < |shards| && shards[j].offset <= x < shards[j].offset + shards[j].length ==> j == i
  {
    var n := |shards| - 1;
    if shards[n].offset <= x {
      i := n;
      forall j | 0 <= j < n ensures shards[j].offset + shards[j].length <= shards[n].offset {
        TilesBelow(shards[..n], shards[n].offset, j);
      }
    } else {
      i := ExactlyOneShard(shards[..n], shards[n].offset, x);
    }
  }

  lemma {:induction false} TilesBelow(shards: seq<Shard>, size: nat, j: nat)
    requires Tiles(shards, size) && j < |shards|
    ensures shards[j].offset + shards[j].length <= size
  {
    var n := |shards| - 1;
    if j < n { TilesBelow(shards[..n], shards[n].offset, j); }
  }

  /** Later shards are shorter, by at most one element. */
  predicate Balanced(shards: seq<Shard>) {
    forall i, j :: 0 <= i < j < |shards| ==> shards[j].length <= shards[i].length <= shards[j].length + 1
  }

  lemma LengthsBalanced(shards: seq<Shard>, q: nat, r: nat)
    requires Lengths(shards, q, r)
    ensures Balanced(shards)
  {
  }

  lemma LengthsAppend(shards: seq<Shard>, s: Shard, q: nat, r: nat)
    requires Lengths(shards, q, r) && s.length == q + if |shards| < r then 1 else 0
    ensures Lengths(shards + [s], q, r)
  {
  }

  lemma TilesAppend(shards: seq<Shard>, start: nat, end: nat)
    requires Tiles(shards, start) && start <= end
    ensures Tiles(shards + [Shard(start, end - start)], end)
  {
    var s := shards + [Shard(start, end - start)];
    assert s[..|s| - 1] == shards;
  }

  predicate Lengths(shards: seq<Shard>, q: nat, r: nat) {
    forall i :: 0 <= i < |shards| ==> shards[i].length == if i < r then q + 1 else q
  }

  lemma ShardsEnd(size: nat, n: nat, q: nat, r: nat)
    requires n > 0 && q == size / n && r == size % n
    ensures n * q + (if n < r then n else r) == size
  {
  }

  /** The range of one shard: the first `remainder` ones take an extra element. */
  function ShardAt(size: nat, n: nat, k: nat): Shard
    requires k < n
  {
    var quotient, remainder := size / n, size % n;
    assert k * quotient >= 0 by { ProductIs(k, quotient); }
    var start := k * quotient + (if k < remainder then k else remainder);
    var end := start + quotient + (if k < remainder then 1 else 0);
    Shard(start, end - start)
  }

  /** Where the first `k` shards end. */
  ghost function EndOf(size: nat, n: nat, k: nat): nat
    requires 0 < n && k <= n
  {
    Product(k, size / n) + if k < size % n then k else size % n
  }

  lemma ShardAtIs(size: nat, n: nat, k: nat)
    requires k < n
    ensures ShardAt(size, n, k).offset == EndOf(size, n, k)
    ensures ShardAt(size, n, k).offset + ShardAt(size, n, k).length == EndOf(size, n, k + 1)
    ensures ShardAt(size, n, k).length == size / n + if k < size % n then 1 else 0
    ensures EndOf(size, n, 0) == 0 && EndOf(size, n, n) == size
  {
    ProductIs(k, size / n);
    ProductIs(n, size / n);
    ShardsEnd(size, n, size / n, size % n);
  }

  function Product(k: nat, q: nat): nat { if k == 0 then 0 else Product(k - 1, q) + q }

  lemma {:induction false} ProductIs(k: nat, q: nat)
    ensures Product(k, q) == k * q
  {
    if k > 0 { ProductIs(k - 1, q); }
  }

  function FirstShards(size: nat, n: nat, k: nat): (r: seq<Shard>)
    requires k <= n
    ensures |r| == k
  {
    if k == 0 then [] else FirstShards(size, n, k - 1) + [ShardAt(size, n, k - 1)]
  }

  lemma {:induction false} FirstShardsTile(size: nat, n: nat, k: nat)
    requires 0 < n && k <= n
    ensures Tiles(FirstShards(size, n, k), EndOf(size, n, k))
    ensures Lengths(FirstShards(size, n, k), size / n, size % n)
  {
    ShardAtIs(size, n, if k == 0 then 0 else k - 1);
    if k > 0 {
      var s := ShardAt(size, n, k - 1);
      FirstShardsTile(size, n, k - 1);
      TilesAppend(FirstShards(size, n, k - 1), s.offset, s.offset + s.length);
      LengthsAppend(FirstShards(size, n, k - 1), s, size / n, size % n);
    }
  }

  /** The shards tile the buffer, and their lengths differ by at most one. */
  lemma ShardsTile(size: nat, n: nat)
    ensures n > 0 ==> Tiles(FirstShards(size, n, n), size)
    ensures Balanced(FirstShards(size, n, n))
  {
    if n > 0 {
      FirstShardsTile(size, n, n);
      ShardAtIs(size, n, 0);
      LengthsBalanced(FirstShards(size, n, n), size / n, size % n);
    }
  }

  class SharedMemoryBuffer {
    const size: nat
    const slots: Window
    var isSharded: bool
    var ready: bool
    var shards: seq<Shard>
    var available: seq<bool>

    constructor (size: nat, slots: Window)
      ensures this.size == size && this.slots == slots && !isSharded && shards == [] && available == []
    {
      this.size, this.slots := size, slots;
      isSharded, ready, shards, available := false, false, [], [];
    }

    /** The shards tile the buffer and differ in length by at most one; `ok` is false on the ValueError. */
    method CreateShards(n: nat) returns (ok: bool)
      requires isSharded || (shards == [] && available == [])
      modifies this
      ensures ok <==> !old(isSharded)
      ensures !ok ==>
                shards == old(shards) && available == old(available) && isSharded == old(isSharded)
                && ready == old(ready)
      ensures ok ==> isSharded && !ready && |shards| == n && |available| == n && true !in available
      ensures ok && n > 0 ==> Tiles(shards, size)
      ensures ok ==> Balanced(shards) && shards == FirstShards(size, n, n)
    {
      if isSharded {
        return false;
      }
      for k := 0 to n
        invariant shards == FirstShards(size, n, k) && |available| == k && true !in available
        invariant isSharded == old(isSharded)
      {
        shards := shards + [ShardAt(size, n, k)];
        available := available + [false];
      }
      ShardsTile(size, n);
      isSharded, ready, ok := true, false, true;
    }

    method MarkShardReady(rank: nat)
      requires isSharded && rank < |available|
      modifies this`available, this`ready
      ensures available == old(available)[rank := true]
      ensures ready == (old(ready) || forall i :: 0 <= i < |available| ==> available[i])
    {
      available := available[rank := true];
      var all := true;
      for i := 0 to |available|
        invariant all <==> forall j :: 0 <= j < i ==> available[j]
      {
        all := all && available[i];
      }
      if all {
        ready := true;
      }
    }
  }

  // ---- back-pressure ----

  /** _allocate and _free: callers that find no room wait on a condition until a buffer is freed. */
  class Pool {
    const shm: SharedMemoryManager
    var waiting: map<nat, int>  // the size that each blocked caller asked for
    var notified: set<nat>      // the blocked callers that a free has woken

    /** A blocked caller that nobody has woken has no window to take. */
    ghost predicate Valid()
      reads this, shm, shm.occupancy
    {
      && shm.Valid() && notified <= waiting.Keys
      && Blocked(shm.occupancy[..], shm, waiting, notified)
    }

    constructor (shm: SharedMemoryManager)
      requires shm.Valid()
      ensures Valid() && this.shm == shm && waiting == map[] && notified == {}
    {
      this.shm := shm;
      waiting, notified := map[], {};
    }

    /** A new call of _allocate; None means that the caller waits or has failed. */
    method Request(caller: nat, size: int) returns (r: Allocation)
      requires Valid() && caller !in waiting
      modifies this`waiting, shm`live, shm.occupancy
      ensures Valid()
      ensures r == ValueError <==> shm.Refuses(size)
      ensures r == NoRoom <==> !shm.Refuses(size) && !SomeFree(old(shm.occupancy[..]), size / shm.slotSize)
      ensures r.Allocated? ==> r.w.count == size / shm.slotSize && IsLowest(old(shm.occupancy[..]), r.w)
      ensures shm.live == if r.Allocated? then old(shm.live) + [r.w] else old(shm.live)
      ensures waiting == if r == NoRoom then old(waiting)[caller := size] else old(waiting)
    {
      r := shm.Allocate(size);
      BlockedAfterAllocate(old(shm.occupancy[..]), shm.occupancy[..], shm, waiting, notified, r);
      if r == NoRoom {
        waiting := waiting[caller := size];
      }
    }

    /** A woken caller tries again. */
    method Retry(caller: nat) returns (r: Allocation)
      requires Valid() && caller in notified
      modifies this, shm`live, shm.occupancy
      ensures Valid()
      ensures r == NoRoom <==> !SomeFree(old(shm.occupancy[..]), old(waiting)[caller] / shm.slotSize)
      ensures r.Allocated? ==> r.w.count == old(waiting)[caller] / shm.slotSize && IsLowest(old(shm.occupancy[..]), r.w)
      ensures shm.live == if r.Allocated? then old(shm.live) + [r.w] else old(shm.live)
      ensures notified == old(notified) - {caller}
      ensures waiting == if r == NoRoom then old(waiting) else old(waiting) - {caller}
    {
      r := shm.Allocate(waiting[caller]);
      BlockedAfterAllocate(old(shm.occupancy[..]), shm.occupancy[..], shm, waiting, notified, r);
      notified := notified - {caller};
      if r != NoRoom {
        waiting := waiting - {caller};
      }
    }

    /** _free wakes every blocked caller. */
    method Free(w: Window)
      requires Valid() && w in shm.live
      modifies this`notified, shm`live, shm.occupancy
      ensures Valid() && IsFree(shm.occupancy[..], w)
      ensures notified == waiting.Keys && multiset(shm.live) == multiset(old(shm.live)) - multiset{w}
    {
      shm.Free(w);
      notified := waiting.Keys;
    }
  }

  ghost predicate Blocked(occ: seq<int>, shm: SharedMemoryManager, waiting: map<nat, int>, notified: set<nat>) {
    shm.slotSize > 0 && forall c :: c in waiting ==>
      !shm.Refuses(waiting[c]) && (c in notified || !SomeFree(occ, waiting[c] / shm.slotSize))
  }

  lemma BlockedAfterAllocate(occ: seq<int>, occ': seq<int>, shm: SharedMemoryManager, waiting: map<nat, int>,
                             notified: set<nat>, r: Allocation)
    requires Blocked(occ, shm, waiting, notified)
    requires occ' == if r.Allocated? then Mark(occ, r.w, 1) else occ
    ensures Blocked(occ', shm, waiting, notified)
  {
    forall c | c in waiting && c !in notified ensures !SomeFree(occ', waiting[c] / shm.slotSize) {
      if r.Allocated? && SomeFree(occ', waiting[c] / shm.slotSize) {
        StillNoneFree(occ, r.w, waiting[c] / shm.slotSize);
        assert false;
      }
    }
  }

  /** Whenever all buffers have been freed, every blocked caller has been woken. */
  lemma DrainedPoolWakesAll(p: Pool, caller: nat)
    requires p.Valid() && p.shm.live == [] && caller in p.waiting
    ensures caller in p.notified
  {
    var m, occ := p.shm, p.shm.occupancy[..];
    var size := p.waiting[caller];
    assert !m.Refuses(size);
    AcceptedIff(m.shmSize, m.slotSize, size);
    forall i | 0 <= i < |occ| ensures occ[i] == 0 {
      assert !Covered(m.live, i);
    }
    assert IsFree(occ, Window(0, size / m.slotSize));
  }
}
