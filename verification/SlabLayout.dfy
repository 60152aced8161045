/**
 How the sidecar groups of one node share a file: every group has a slab for sending and one for
 receiving, each divided into slots of the group's own element type.
*/
module SlabLayout {
  import opened ModArithmetic
  import opened Options
  import opened ShmManager

  /** A range of bytes of the file. */
  datatype Bytes = Bytes(start: nat, length: nat)
  {
    predicate Within(b: Bytes) { b.start <= start && start + length <= b.start + b.length }

    predicate Apart(b: Bytes) { start + length <= b.start || b.start + b.length <= start }
  }

  /** A sidecar group: the consecutive local ranks of its members and the sizes of its element types. */
  datatype Group = Group(ranks: seq<nat>, sendItem: nat, recvItem: nat)

  predicate ItemSize(n: nat) { n == 1 || n == 2 || n == 4 || n == 8 }

  /** The check of init_shmem, on a list that is not empty. */
  predicate Consecutive(ranks: seq<nat>) {
    |ranks| > 0 && forall i :: 0 <= i < |ranks| - 1 ==> ranks[i] + 1 == ranks[i + 1]
  }

  predicate GroupOk(g: Group) { Consecutive(g.ranks) && ItemSize(g.sendItem) && ItemSize(g.recvItem) }

  function First(g: Group): nat
    requires |g.ranks| > 0
  {
    g.ranks[0]
  }

  function Last(g: Group): nat
    requires |g.ranks| > 0
  {
    g.ranks[|g.ranks| - 1]
  }

  /** The bytes of a slab that hold whole elements. */
  function PartBytes(shmSize: nat, item: nat): nat
    requires ItemSize(item)
  {
    shmSize / 2 / item * item
  }

  function PartitionBytes(shmSize: nat, g: Group): nat
    requires ItemSize(g.sendItem) && ItemSize(g.recvItem)
  {
    PartBytes(shmSize, g.sendItem) + PartBytes(shmSize, g.recvItem)
  }

  /** init_shmem: the part of the file that belongs to the group's ranks; None is the AssertionError. */
  function InitShmem(ranks: seq<nat>, partition: nat): Option<Bytes> {
    if !Consecutive(ranks) then None
    else
      var start := partition * ranks[0];
      var end := partition * (ranks[|ranks| - 1] + 1);
      Some(Bytes(start, if end >= start then end - start else 0))
  }

  function SlabOf(shmSize: nat, g: Group): Bytes
    requires GroupOk(g)
  {
    InitShmem(g.ranks, PartitionBytes(shmSize, g)).value
  }

  /** sender_config */
  function SenderSlab(shmSize: nat, g: Group): Bytes
    requires GroupOk(g)
  {
    var slab, part := SlabOf(shmSize, g), PartBytes(shmSize, g.sendItem);
    Bytes(slab.start, if part <= slab.length then part else slab.length)
  }

  /** receiver_config */
  function ReceiverSlab(shmSize: nat, g: Group): Bytes
    requires GroupOk(g)
  {
    var slab, part := SlabOf(shmSize, g), PartBytes(shmSize, g.sendItem);
    if part <= slab.length then Bytes(slab.start + part, slab.length - part) else Bytes(slab.start + slab.length, 0)
  }

  /** The data of a buffer: its slots' elements in the slab viewed with the element type. */
  function BufferBytes(slab: Bytes, item: nat, slotNumel: nat, w: Window): Bytes {
    Bytes(slab.start + w.first * slotNumel * item, w.count * slotNumel * item)
  }

  function NumSlots(slab: Bytes, item: nat, slotNumel: nat): nat
    requires item > 0 && slotNumel > 0
  {
    slab.length / item / slotNumel
  }

  // ---- all groups divide the file in the same places ----

  /** Every choice of element types makes partitions of the same size exactly if half the size is a multiple of 8. */
  lemma SamePartitionsIff(shmSize: nat)
    ensures shmSize / 2 % 8 == 0 <==>
            forall s, r :: ItemSize(s) && ItemSize(r) ==>
                PartBytes(shmSize, s) + PartBytes(shmSize, r) == shmSize / 2 * 2
  {
    var half := shmSize / 2;
    if half % 8 == 0 {
      forall s | ItemSize(s) ensures PartBytes(shmSize, s) == half { WholeElements(shmSize, s); }
    } else {
      assert ItemSize(8) && PartBytes(shmSize, 8) == half / 8 * 8 < half;
      assert PartBytes(shmSize, 8) + PartBytes(shmSize, 8) != half * 2;
    }
  }

  lemma WholeElements(shmSize: nat, item: nat)
    requires shmSize / 2 % 8 == 0 && ItemSize(item)
    ensures PartBytes(shmSize, item) == shmSize / 2
  {
    EightDivides(shmSize / 2, item);
    DivideBack(shmSize / 2, item);
  }

  lemma DivideBack(x: nat, d: nat)
    requires d > 0 && x % d == 0
    ensures x / d * d == x
  {
  }

  lemma {:induction false} RanksGrow(ranks: seq<nat>)
    requires Consecutive(ranks)
    ensures ranks[|ranks| - 1] == ranks[0] + |ranks| - 1
    decreases |ranks|
  {
    if |ranks| > 1 {
      var front := ranks[..|ranks| - 1];
      assert ranks[|front| - 1] + 1 == ranks[|front|];
      RanksGrow(front);
    }
  }

  lemma {:induction false} RankAt(ranks: seq<nat>, i: nat)
    requires Consecutive(ranks) && i < |ranks|
    ensures ranks[i] == ranks[0] + i
  {
    if i > 0 {
      RankAt(ranks, i - 1);
      assert ranks[i - 1] + 1 == ranks[i - 1 + 1];
    }
  }

  /** No rank belongs to both groups. */
  predicate Disjoint(a: Group, b: Group) {
    forall r :: r in a.ranks ==> r !in b.ranks
  }

  /** Of two groups with disjoint ranks one comes before the other. */
  lemma DisjointOrdered(a: Group, b: Group)
    requires GroupOk(a) && GroupOk(b)
    ensures Disjoint(a, b) <==> Last(a) < First(b) || Last(b) < First(a)
  {
    RanksGrow(a.ranks);
    RanksGrow(b.ranks);
    if Last(a) >= First(b) && Last(b) >= First(a) {
      var r := if First(a) <= First(b) then First(b) else First(a);
      RankAt(a.ranks, r - First(a));
      RankAt(b.ranks, r - First(b));
      assert r in a.ranks && r in b.ranks;
    } else {
      forall r | r in a.ranks ensures First(a) <= r <= Last(a) { InRanks(a.ranks, r); }
      forall r | r in b.ranks ensures First(b) <= r <= Last(b) { InRanks(b.ranks, r); }
    }
  }

  lemma InRanks(ranks: seq<nat>, r: nat)
    requires Consecutive(ranks) && r in ranks
    ensures ranks[0] <= r <= ranks[|ranks| - 1]
  {
    var i :| 0 <= i < |ranks| && ranks[i] == r;
    RankAt(ranks, i);
    RankAt(ranks, |ranks| - 1);
  }

  lemma Times(p: nat, a: nat, b: nat)
    requires a <= b
    ensures p * a <= p * b
  {
  }

  lemma TimesNext(p: nat, a: nat)
    ensures p * (a + 1) == p * a + p
  {
  }

  /** A group's slab starts at its first rank's partition and ends with its last rank's. */
  lemma SlabIs(shmSize: nat, g: Group, n: nat)
    requires GroupOk(g) && shmSize / 2 % 8 == 0 && Last(g) < n
    ensures var p := shmSize / 2 * 2;
            && SlabOf(shmSize, g).start == p * First(g)
            && SlabOf(shmSize, g).start + SlabOf(shmSize, g).length == p * (Last(g) + 1) <= p * n
            && SlabOf(shmSize, g).length >= p
  {
    SamePartitionsIff(shmSize);
    var p := shmSize / 2 * 2;
    assert PartitionBytes(shmSize, g) == p;
    RanksGrow(g.ranks);
    Times(p, First(g), Last(g));
    TimesNext(p, Last(g));
    Times(p, Last(g) + 1, n);
  }

  /** The sender's half comes first; the receiver has the rest, which is everything else of the group's ranks. */
  lemma HalvesTile(shmSize: nat, g: Group, n: nat)
    requires GroupOk(g) && shmSize / 2 % 8 == 0 && Last(g) < n
    ensures var slab, s, r := SlabOf(shmSize, g), SenderSlab(shmSize, g), ReceiverSlab(shmSize, g);
            && s.start == slab.start && s.start + s.length == r.start && r.start + r.length == slab.start + slab.length
            && s.length == shmSize / 2 && s.Apart(r)
  {
    SlabIs(shmSize, g, n);
    WholeElements(shmSize, g.sendItem);
  }

  /** Both views are possible: a slab starts and ends at a multiple of its element size. */
  lemma ViewsAreAligned(shmSize: nat, g: Group, n: nat, side: Side)
    requires GroupOk(g) && shmSize / 2 % 8 == 0 && Last(g) < n
    ensures SideSlab(shmSize, g, side).start % SideItem(g, side) == 0
    ensures SideSlab(shmSize, g, side).length % SideItem(g, side) == 0
  {
    MultiplesOfEight(shmSize, g, n, side);
    var slab := SideSlab(shmSize, g, side);
    EightDivides(slab.start, SideItem(g, side));
    EightDivides(slab.length, SideItem(g, side));
  }

  lemma MultiplesOfEight(shmSize: nat, g: Group, n: nat, side: Side)
    requires GroupOk(g) && shmSize / 2 % 8 == 0 && Last(g) < n
    ensures SideSlab(shmSize, g, side).start % 8 == 0 && SideSlab(shmSize, g, side).length % 8 == 0
  {
    HalvesTile(shmSize, g, n);
    SlabIs(shmSize, g, n);
    EightParts(shmSize / 2, First(g), Last(g) + 1, SlabOf(shmSize, g), SenderSlab(shmSize, g),
        ReceiverSlab(shmSize, g));
  }

  lemma EightParts(half: nat, first: nat, end: nat, slab: Bytes, s: Bytes, r: Bytes)
    requires half % 8 == 0
    requires slab.start == half * 2 * first && slab.start + slab.length == half * 2 * end
    requires s.start == slab.start && s.length == half && s.start + s.length == r.start
    requires r.start + r.length == slab.start + slab.length
    ensures s.start % 8 == 0 && s.length % 8 == 0 && r.start % 8 == 0 && r.length % 8 == 0
  {
    EightTimes(half * 2, first);
    EightTimes(half * 2, end);
    EightMinus(slab.start, 0 - half as int);
    EightMinus(slab.start + slab.length, r.start);
  }

  lemma EightMinus(a: int, b: int)
    requires a % 8 == 0 && b % 8 == 0
    ensures (a - b) % 8 == 0
  {
  }

  lemma EightDivides(x: nat, item: nat)
    requires ItemSize(item) && x % 8 == 0
    ensures x % item == 0
  {
    if item == 1 {
      assert x % 1 == 0;
    } else if item == 2 {
      assert x % 2 == 0;
    } else if item == 4 {
      assert x % 4 == 0;
    }
  }

  lemma EightTimes(p: nat, a: nat)
    requires p % 8 == 0
    ensures p * a % 8 == 0
  {
    var k := p / 8;
    assert p * a == 8 * (k * a);
  }

  /** The slabs of all groups with disjoint ranks are apart exactly if half the size is a multiple of 8. */
  lemma SlabsApartIff(shmSize: nat)
    ensures shmSize / 2 % 8 == 0 <==>
            forall a, b :: GroupOk(a) && GroupOk(b) && Disjoint(a, b) ==> SlabOf(shmSize, a).Apart(SlabOf(shmSize, b))
  {
    if shmSize / 2 % 8 == 0 {
      forall a, b | GroupOk(a) && GroupOk(b) && Disjoint(a, b) ensures SlabOf(shmSize, a).Apart(SlabOf(shmSize, b)) {
        DisjointOrdered(a, b);
        if Last(a) < First(b) { SlabsApart(shmSize, a, b); } else { SlabsApart(shmSize, b, a); }
      }
    } else {
      SlabsOverlap(shmSize);
      DisjointOrdered(Group([0], 1, 1), Group([1], 1, 8));
    }
  }

  lemma SlabsApart(shmSize: nat, a: Group, b: Group)
    requires shmSize / 2 % 8 == 0 && GroupOk(a) && GroupOk(b) && Last(a) < First(b)
    ensures SlabOf(shmSize, a).Apart(SlabOf(shmSize, b))
  {
    RanksGrow(b.ranks);
    SlabIs(shmSize, a, Last(b) + 1);
    SlabIs(shmSize, b, Last(b) + 1);
    Times(shmSize / 2 * 2, Last(a) + 1, First(b));
  }

  /** For every other size there is a choice of element types with which two neighbours overlap. */
  lemma SlabsOverlap(shmSize: nat)
    requires shmSize / 2 % 8 != 0
    ensures var a, b := Group([0], 1, 1), Group([1], 1, 8);
            GroupOk(a) && GroupOk(b) && Last(a) < First(b) && !SlabOf(shmSize, a).Apart(SlabOf(shmSize, b))
  {
    var half, a, b := shmSize / 2, Group([0], 1, 1), Group([1], 1, 8);
    var p := half + half / 8 * 8;
    assert PartBytes(shmSize, 1) == half && PartBytes(shmSize, 8) == half / 8 * 8;
    assert SlabOf(shmSize, a) == Bytes(0, half * 2) && SlabOf(shmSize, b) == Bytes(p, p);
    assert 0 < p < half * 2;
  }

  // ---- buffers ----

  /** A group's slab with the element size that it is viewed with. */
  datatype Side = Sending | Receiving

  function SideSlab(shmSize: nat, g: Group, side: Side): Bytes
    requires GroupOk(g)
  {
    if side.Sending? then SenderSlab(shmSize, g) else ReceiverSlab(shmSize, g)
  }

  function SideItem(g: Group, side: Side): nat {
    if side.Sending? then g.sendItem else g.recvItem
  }

  /** A buffer of a group: its slots, each of `slot` elements, on one side. */
  datatype Buffer = Buffer(g: Group, side: Side, slot: nat, w: Window)

  /** Where a buffer lies in the file. */
  function Place(shmSize: nat, b: Buffer): Bytes
    requires GroupOk(b.g)
  {
    BufferBytes(SideSlab(shmSize, b.g, b.side), SideItem(b.g, b.side), b.slot, b.w)
  }

  /** The allocator hands out windows of existing slots. */
  predicate InSlots(shmSize: nat, b: Buffer) {
    && GroupOk(b.g) && b.slot > 0
    && b.w.first + b.w.count <= NumSlots(SideSlab(shmSize, b.g, b.side), SideItem(b.g, b.side), b.slot)
  }

  /** The file of a node with `n` sidecars. */
  function File(shmSize: nat, n: nat): Bytes { Bytes(0, shmSize / 2 * 2 * n) }

  lemma BufferInSlab(slab: Bytes, item: nat, slot: nat, w: Window)
    requires item > 0 && slot > 0 && w.first + w.count <= NumSlots(slab, item, slot)
    ensures BufferBytes(slab, item, slot, w).Within(slab)
  {
    var n := slab.length / item;
    var e := w.first + w.count;
    Times(slot, e, n / slot);
    assert slot * (n / slot) <= n;
    Times(item, e * slot, n);
    assert item * n <= slab.length;
    assert w.first * slot * item + w.count * slot * item == e * slot * item by {
      assert w.first * slot + w.count * slot == e * slot;
      Distribute(w.first * slot, w.count * slot, item);
    }
  }

  /** One slot has the bytes of its elements, the first one starts the slab, and the next one follows. */
  lemma SlotsAdjoin(slab: Bytes, item: nat, slot: nat, w: Window, k: nat)
    ensures BufferBytes(slab, item, slot, Window(0, 1)) == Bytes(slab.start, slot * item)
    ensures var a, b := BufferBytes(slab, item, slot, w), BufferBytes(slab, item, slot, Window(w.first + w.count, k));
            && a.start + a.length == b.start
            && BufferBytes(slab, item, slot, Window(w.first, w.count + k)) == Bytes(a.start, a.length + b.length)
  {
    Distribute(w.first, w.count, slot);
    Distribute(w.first * slot, w.count * slot, item);
    Distribute(w.count, k, slot);
    Distribute(w.count * slot, k * slot, item);
  }

  /** There is no room for another whole slot. */
  lemma SlotsFill(slab: Bytes, item: nat, slot: nat)
    requires item > 0 && slot > 0
    ensures var n := NumSlots(slab, item, slot);
            BufferBytes(slab, item, slot, Window(0, n)).Within(slab)
            && !BufferBytes(slab, item, slot, Window(0, n + 1)).Within(slab)
  {
    var n, elements := NumSlots(slab, item, slot), slab.length / item;
    BufferInSlab(slab, item, slot, Window(0, n));
    assert elements == n * slot + elements % slot;
    TimesNext(slot, n);
    assert (n + 1) * slot >= elements + 1;
    Times(item, elements + 1, (n + 1) * slot);
    TimesNext(item, elements);
    assert slab.length == elements * item + slab.length % item;
  }

  /** Each part is the whole elements of half the size. */
  lemma PartIs(shmSize: nat, item: nat)
    requires ItemSize(item)
    ensures PartBytes(shmSize, item) % item == 0
    ensures PartBytes(shmSize, item) <= shmSize / 2 < PartBytes(shmSize, item) + item
  {
    var half := shmSize / 2;
    assert half == half / item * item + half % item;
    DivModUnique(half / item * item, half / item, 0, item);
  }

  lemma Distribute(a: nat, b: nat, c: nat)
    ensures a * c + b * c == (a + b) * c
  {
  }

  /** Buffers with no slot in common have no byte in common. */
  lemma BuffersApart(slab: Bytes, item: nat, slot: nat, v: Window, w: Window)
    requires v.first + v.count <= w.first
    ensures BufferBytes(slab, item, slot, v).Apart(BufferBytes(slab, item, slot, w))
  {
    var e := v.first + v.count;
    Times(slot, e, w.first);
    Times(item, e * slot, w.first * slot);
    Distribute(v.first, v.count, slot);
    Distribute(v.first * slot, v.count * slot, item);
  }

  lemma PartsApart(a: Bytes, slabA: Bytes, b: Bytes, slabB: Bytes)
    requires a.Within(slabA) && b.Within(slabB) && slabA.Apart(slabB)
    ensures a.Apart(b)
  {
  }

  lemma PlaceInSlab(shmSize: nat, n: nat, b: Buffer)
    requires shmSize / 2 % 8 == 0 && InSlots(shmSize, b) && Last(b.g) < n
    ensures Place(shmSize, b).Within(SideSlab(shmSize, b.g, b.side))
    ensures SideSlab(shmSize, b.g, b.side).Within(SlabOf(shmSize, b.g))
    ensures SlabOf(shmSize, b.g).Within(File(shmSize, n))
  {
    BufferInSlab(SideSlab(shmSize, b.g, b.side), SideItem(b.g, b.side), b.slot, b.w);
    HalvesTile(shmSize, b.g, n);
    SlabIs(shmSize, b.g, n);
  }

  /** A buffer lies within the node's file. */
  lemma InFile(shmSize: nat, n: nat, b: Buffer)
    requires shmSize / 2 % 8 == 0 && InSlots(shmSize, b) && Last(b.g) < n
    ensures Place(shmSize, b).Within(File(shmSize, n))
  {
    PlaceInSlab(shmSize, n, b);
  }

  /** Groups with disjoint ranks never share a byte, whatever their element types. */
  lemma GroupsApart(shmSize: nat, n: nat, a: Buffer, b: Buffer)
    requires shmSize / 2 % 8 == 0 && InSlots(shmSize, a) && InSlots(shmSize, b)
    requires Disjoint(a.g, b.g) && Last(a.g) < n && Last(b.g) < n
    ensures Place(shmSize, a).Apart(Place(shmSize, b))
  {
    PlaceInSlab(shmSize, n, a);
    PlaceInSlab(shmSize, n, b);
    SlabsApartIff(shmSize);
    PartsApart(Place(shmSize, a), SlabOf(shmSize, a.g), Place(shmSize, b), SlabOf(shmSize, b.g));
  }

  /** Within a group, buffers of one side are apart if their slots are, and the two sides are apart. */
  lemma BuffersOfGroupApart(shmSize: nat, n: nat, a: Buffer, b: Buffer)
    requires shmSize / 2 % 8 == 0 && InSlots(shmSize, a) && InSlots(shmSize, b) && a.g == b.g && Last(a.g) < n
    requires a.side == b.side ==> a.slot == b.slot && a.w.Apart(b.w)
    ensures Place(shmSize, a).Apart(Place(shmSize, b))
  {
    if a.side == b.side {
      var slab, item := SideSlab(shmSize, a.g, a.side), SideItem(a.g, a.side);
      if a.w.first + a.w.count <= b.w.first {
        BuffersApart(slab, item, a.slot, a.w, b.w);
      } else {
        BuffersApart(slab, item, a.slot, b.w, a.w);
      }
    } else {
      PlaceInSlab(shmSize, n, a);
      PlaceInSlab(shmSize, n, b);
      HalvesTile(shmSize, a.g, n);
      PartsApart(Place(shmSize, a), SideSlab(shmSize, a.g, a.side), Place(shmSize, b), SideSlab(shmSize, b.g, b.side));
    }
  }

  // ---- handles ----

  datatype Handle = Handle(offset: nat, numel: nat)

  /** data_ptr - base_ptr and the number of elements. */
  function MakeHandle(slab: Bytes, item: nat, slot: nat, w: Window): Handle {
    Handle(BufferBytes(slab, item, slot, w).start, w.count * slot)
  }

  /** The bytes that a reader with elements of `item` bytes maps. */
  function ReadHandle(h: Handle, item: nat): Bytes {
    Bytes(h.offset, h.numel * item)
  }

  /** A handle decodes to its buffer exactly if both sides use elements of the same size. */
  lemma HandleRoundTrip(slab: Bytes, item: nat, slot: nat, w: Window, item': nat)
    requires w.count > 0 && slot > 0
    ensures ReadHandle(MakeHandle(slab, item, slot, w), item') == BufferBytes(slab, item, slot, w) <==> item == item'
  {
    var k := w.count * slot;
    assert k >= 1 by { Times(w.count, 1, slot); }
    if item < item' {
      Times(k, item + 1, item');
      TimesNext(k, item);
    } else if item' < item {
      Times(k, item' + 1, item);
      TimesNext(k, item');
    }
  }
}
