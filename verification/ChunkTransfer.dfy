/**
 One tensor chunk sent to other nodes with concurrent copy: every rank of the sending group calls `send`
 with its shard, and the leader sidecar of each destination assembles the shards. The handlers are
 state machines whose steps are the code between two awaits.
*/
module ChunkTransfer {
  import opened Options
  import opened ShmManager

  /** The elements are only copied. */
  type Elem = int

  datatype RawParams = RawParams(g: nat, tensor: seq<Elem>, shmSize: nat, slotSize: nat)

  /** The size of the sending group, the tensor, and the sender's slab with its slots. */
  type Params = p: RawParams | p.g > 0 && p.slotSize > 0 ghost witness RawParams(1, [], 1, 1)

  /** The sender's slab raises ValueError for the size of the tensor. */
  predicate Refused(p: Params) {
    IsRefused(p.shmSize, p.slotSize, |p.tensor|)
  }

  function ShardOf(p: Params, r: nat): Shard
    requires r < p.g
  {
    ShardAt(|p.tensor|, p.g, r)
  }

  predicate HasData(p: Params, r: nat)
    requires r < p.g
  {
    ShardOf(p, r).length > 0
  }

  function Slice(xs: seq<Elem>, s: Shard): seq<Elem>
    requires s.offset + s.length <= |xs|
  {
    xs[s.offset..s.offset + s.length]
  }

  /** Writes `src` over the range of a shard. */
  function Blit(xs: seq<Elem>, s: Shard, src: seq<Elem>): (r: seq<Elem>)
    requires s.offset + s.length <= |xs| && |src| == s.length
    ensures |r| == |xs|
  {
    xs[..s.offset] + src + xs[s.offset + s.length..]
  }

  /** `xs` is as long as the tensor and agrees with it on shard `r`. */
  predicate Copied(p: Params, xs: seq<Elem>, r: nat)
    requires r < p.g
  {
    |xs| == |p.tensor| && InBounds(p, r) && Slice(xs, ShardOf(p, r)) == Slice(p.tensor, ShardOf(p, r))
  }

  predicate InBounds(p: Params, r: nat)
    requires r < p.g
  {
    ShardOf(p, r).offset + ShardOf(p, r).length <= |p.tensor|
  }

  predicate AllTrue(xs: seq<bool>) {
    forall i :: 0 <= i < |xs| ==> xs[i]
  }

  function Nones(n: nat): seq<bool> { seq(n, _ => false) }

  lemma ShardBounds(p: Params, r: nat)
    requires r < p.g
    ensures InBounds(p, r)
    ensures |p.tensor| >= p.g ==> HasData(p, r)
    ensures r == p.g - 1 && |p.tensor| < p.g ==> !HasData(p, r)
  {
    var n := |p.tensor|;
    ShardAtIs(n, p.g, r);
    ShardsTile(n, p.g);
    FirstShardsAt(n, p.g, p.g, r);
    TilesBelow(FirstShards(n, p.g, p.g), n, r);
    Quotient(n, p.g);
  }

  lemma Quotient(n: nat, g: nat)
    requires g > 0
    ensures n >= g ==> n / g >= 1
    ensures n < g ==> n / g == 0 && n % g == n
  {
  }

  lemma {:induction false} FirstShardsAt(size: nat, n: nat, k: nat, r: nat)
    requires r < k <= n
    ensures FirstShards(size, n, k)[r] == ShardAt(size, n, r)
  {
    if r < k - 1 { FirstShardsAt(size, n, k - 1, r); }
  }

  lemma ShardsApart(p: Params, q: nat, r: nat)
    requires q < r < p.g
    ensures ShardOf(p, q).offset + ShardOf(p, q).length <= ShardOf(p, r).offset
  {
    ShardAtIs(|p.tensor|, p.g, q);
    ShardAtIs(|p.tensor|, p.g, r);
    EndsGrow(|p.tensor|, p.g, q + 1, r);
  }

  lemma {:induction false} EndsGrow(size: nat, n: nat, j: nat, k: nat)
    requires 0 < n && j <= k <= n
    ensures EndOf(size, n, j) <= EndOf(size, n, k)
    decreases k
  {
    if j < k {
      ShardAtIs(size, n, k - 1);
      EndsGrow(size, n, j, k - 1);
    }
  }

  /** Filling one shard leaves the other ones as they are. */
  lemma BlitKeeps(p: Params, xs: seq<Elem>, r: nat)
    requires r < p.g && |xs| == |p.tensor|
    ensures InBounds(p, r) && Copied(p, Blit(xs, ShardOf(p, r), Slice(p.tensor, ShardOf(p, r))), r)
    ensures forall q :: 0 <= q < p.g && q != r && Copied(p, xs, q) ==>
              Copied(p, Blit(xs, ShardOf(p, r), Slice(p.tensor, ShardOf(p, r))), q)
  {
    ShardBounds(p, r);
    var ys := Blit(xs, ShardOf(p, r), Slice(p.tensor, ShardOf(p, r)));
    forall q | 0 <= q < p.g && q != r && Copied(p, xs, q) ensures Copied(p, ys, q) {
      if q < r { ShardsApart(p, q, r); } else { ShardsApart(p, r, q); }
      assert Slice(ys, ShardOf(p, q)) == Slice(xs, ShardOf(p, q));
    }
  }

  /** A buffer that holds every shard is the tensor. */
  lemma AllCopied(p: Params, xs: seq<Elem>)
    requires |xs| == |p.tensor| && forall r :: 0 <= r < p.g ==> Copied(p, xs, r)
    ensures xs == p.tensor
  {
    ShardsTile(|xs|, p.g);
    forall x | 0 <= x < |xs| ensures xs[x] == p.tensor[x] {
      var r := ExactlyOneShard(FirstShards(|xs|, p.g, p.g), |xs|, x);
      FirstShardsAt(|xs|, p.g, p.g, r);
      var s := ShardOf(p, r);
      assert Copied(p, xs, r) && Slice(xs, s)[x - s.offset] == Slice(p.tensor, s)[x - s.offset];
    }
  }

  // ---- the sender ----

  datatype CallPc =
    | Idle        // `send` is not called yet
    | Allocating  // the first call, in _allocate
    | Waiting     // a later call, waiting for malloc_events[id]
    | Copying
    | Sending     // gathers one coroutine for each destination
    | Freeing     // removed the ledger entry, in _free
    | Returned
    | Failed      // the first call, whose _allocate has raised

  /** `ledger` says that ledger[id] exists; `crashed` stands for a KeyError. */
  datatype Sender = Sender(malloc: Option<bool>, doneEvent: Option<bool>, ledger: bool, buffer: seq<Elem>,
                              avail: seq<bool>, sent: seq<bool>, calls: seq<CallPc>,
                              first: nat, freer: nat, allocations: nat, frees: nat, crashed: bool)

  datatype SendAction =
    | Call(r: nat)
    | Allocate(r: nat, junk: seq<Elem>)
    | Refuse(r: nat)  // allocate raises for the first call
    | Resume(r: nat)
    | CopyDone(r: nat)
    | Gathered(r: nat)
    | FreeBuffer(r: nat)

  function InitSender(p: Params): Sender {
    Sender(None, None, false, [], Nones(p.g), Nones(p.g), seq(p.g, _ => Idle), 0, 0, 0, 0, false)
  }

  /** Whether `a` can happen, given that the code has arrived there. */
  predicate SenderCan(p: Params, s: Sender, a: SendAction) {
    a.r < p.g && |s.calls| == |s.avail| == |s.sent| == p.g && InBounds(p, a.r) &&
    match a
    case Call(r) => s.calls[r] == Idle
    case Allocate(r, junk) => s.calls[r] == Allocating && |junk| == |p.tensor| && !Refused(p)
    case Refuse(r) => s.calls[r] == Allocating && Refused(p)
    case Resume(r) => s.calls[r] == Waiting && s.malloc == Some(true)
    case CopyDone(r) => s.calls[r] == Copying && |s.buffer| == |p.tensor|
    case Gathered(r) => s.calls[r] == Sending
    case FreeBuffer(r) => s.calls[r] == Freeing
  }

  function SenderStep(p: Params, s: Sender, a: SendAction): Sender
    requires SenderCan(p, s, a)
  {
    match a
    case Call(r) =>
      if s.malloc == None
      then s.(malloc := Some(false), doneEvent := Some(false), calls := s.calls[r := Allocating], first := r)
      else s.(calls := s.calls[r := Waiting])
    case Allocate(r, junk) =>
      StartCopy(p, s.(malloc := Some(true), ledger := true, buffer := junk, avail := Nones(p.g), sent := Nones(p.g),
                      allocations := s.allocations + 1), r)
    case Refuse(r) =>
      s.(calls := s.calls[r := Failed])
    case Resume(r) =>
      if s.ledger then StartCopy(p, s, r) else s.(crashed := true)
    case CopyDone(r) =>
      MarkReady(s.(buffer := Blit(s.buffer, ShardOf(p, r), Slice(p.tensor, ShardOf(p, r))),
          calls := s.calls[r := Sending]), r)
    case Gathered(r) =>
      if !s.ledger then s.(crashed := true) else
      var sent := s.sent[r := true];
      if AllTrue(sent)
      then s.(sent := sent, ledger := false, calls := s.calls[r := Freeing], freer := r)
      else s.(sent := sent, calls := s.calls[r := Returned])
    case FreeBuffer(r) =>
      s.(frees := s.frees + 1, calls := s.calls[r := Returned])
  }

  /** A shard without elements is ready at once, and its call returns without sending. */
  function StartCopy(p: Params, s: Sender, r: nat): Sender
    requires r < p.g && |s.calls| == |s.avail| == p.g
  {
    if HasData(p, r) then s.(calls := s.calls[r := Copying])
    else MarkReady(s.(calls := s.calls[r := Returned]), r)
  }

  function MarkReady(s: Sender, r: nat): Sender
    requires r < |s.avail|
  {
    var avail := s.avail[r := true];
    s.(avail := avail, doneEvent := if AllTrue(avail) then Some(true) else s.doneEvent)
  }

  ghost predicate SenderOk(p: Params, s: Sender) {
    && |s.calls| == p.g && |s.avail| == p.g && |s.sent| == p.g && !s.crashed && SenderPhase(p, s)
    && (forall r :: 0 <= r < p.g ==> CallOk(p, s, r))
  }

  ghost predicate SenderPhase(p: Params, s: Sender)
    requires |s.calls| == p.g
  {
    match s.malloc
    case None => !s.ledger && s.doneEvent == None && s.allocations == 0 && s.frees == 0
    case Some(false) => !s.ledger && s.doneEvent == Some(false) && s.allocations == 0 && s.frees == 0 && s.first < p.g
                        && (s.calls[s.first] == Allocating || s.calls[s.first] == Failed)
    case Some(true) =>
      && !Refused(p) && s.first < p.g && s.allocations == 1 && |s.buffer| == |p.tensor|
          && s.doneEvent == Some(AllTrue(s.avail))
      && (s.ledger ==> s.frees == 0 && !AllTrue(s.sent))
      && (!s.ledger ==> AllTrue(s.sent) && s.freer < p.g && s.calls[s.freer] in {Freeing, Returned}
                        && s.frees == if s.calls[s.freer] == Freeing then 0 else 1)
  }

  ghost predicate CallOk(p: Params, s: Sender, r: nat)
    requires r < p.g && |s.calls| == |s.avail| == |s.sent| == p.g
  {
    && (s.malloc != Some(true) ==> !s.avail[r] && !s.sent[r])
    && match s.calls[r]
       case Idle => !s.avail[r] && !s.sent[r]
       case Allocating => s.malloc == Some(false) && s.first == r
       case Failed => s.malloc == Some(false) && s.first == r && Refused(p)
       case Waiting => s.malloc != None && !s.avail[r] && !s.sent[r]
       case Copying => s.malloc == Some(true) && !s.avail[r] && !s.sent[r] && HasData(p, r)
       case Sending => s.malloc == Some(true) && s.avail[r] && !s.sent[r] && HasData(p, r) && Copied(p, s.buffer, r)
       case Freeing => s.malloc == Some(true) && s.avail[r] && s.sent[r] && HasData(p, r) && !s.ledger && s.freer == r
       case Returned => s.malloc == Some(true) && s.avail[r] && s.sent[r] == HasData(p, r)
  }

  lemma InitSenderOk(p: Params)
    ensures SenderOk(p, InitSender(p))
  {
  }

  lemma SenderKeeps(p: Params, s: Sender, a: SendAction)
    requires SenderOk(p, s) && SenderCan(p, s, a)
    ensures SenderOk(p, SenderStep(p, s, a))
  {
    match a
    case Call(r) => CallKeeps(p, s, r);
    case Allocate(r, junk) => AllocateKeeps(p, s, r, junk);
    case Refuse(r) => RefuseKeeps(p, s, r);
    case Resume(r) => ResumeKeeps(p, s, r);
    case CopyDone(r) => CopyKeeps(p, s, r);
    case Gathered(r) => GatheredKeeps(p, s, r);
    case FreeBuffer(r) => FreeKeeps(p, s, r);
  }

  lemma CallKeeps(p: Params, s: Sender, r: nat)
    requires SenderOk(p, s) && SenderCan(p, s, Call(r))
    ensures SenderOk(p, SenderStep(p, s, Call(r)))
  {
    var t := SenderStep(p, s, Call(r));
    forall q | 0 <= q < p.g ensures CallOk(p, t, q) {
      assert CallOk(p, s, q);
    }
  }

  lemma AllocateKeeps(p: Params, s: Sender, r: nat, junk: seq<Elem>)
    requires SenderOk(p, s) && SenderCan(p, s, Allocate(r, junk))
    ensures SenderOk(p, SenderStep(p, s, Allocate(r, junk)))
  {
    var t := SenderStep(p, s, Allocate(r, junk));
    assert CallOk(p, s, r);
    forall q | 0 <= q < p.g ensures CallOk(p, t, q) {
      assert CallOk(p, s, q);
    }
    assert !t.sent[0];
    assert !Nones(p.g)[0];
  }

  lemma RefuseKeeps(p: Params, s: Sender, r: nat)
    requires SenderOk(p, s) && SenderCan(p, s, Refuse(r))
    ensures SenderOk(p, SenderStep(p, s, Refuse(r)))
  {
    var t := SenderStep(p, s, Refuse(r));
    assert CallOk(p, s, r);
    forall q | 0 <= q < p.g ensures CallOk(p, t, q) {
      assert CallOk(p, s, q);
    }
  }

  lemma ResumeKeeps(p: Params, s: Sender, r: nat)
    requires SenderOk(p, s) && SenderCan(p, s, Resume(r))
    ensures SenderOk(p, SenderStep(p, s, Resume(r)))
  {
    var t := SenderStep(p, s, Resume(r));
    assert CallOk(p, s, r);
    forall q | 0 <= q < p.g ensures CallOk(p, t, q) {
      assert CallOk(p, s, q);
    }
  }

  lemma CopyKeeps(p: Params, s: Sender, r: nat)
    requires SenderOk(p, s) && SenderCan(p, s, CopyDone(r))
    ensures SenderOk(p, SenderStep(p, s, CopyDone(r)))
  {
    var t := SenderStep(p, s, CopyDone(r));
    assert CallOk(p, s, r);
    BlitKeeps(p, s.buffer, r);
    forall q | 0 <= q < p.g ensures CallOk(p, t, q) {
      assert CallOk(p, s, q);
    }
  }

  lemma GatheredKeeps(p: Params, s: Sender, r: nat)
    requires SenderOk(p, s) && SenderCan(p, s, Gathered(r))
    ensures SenderOk(p, SenderStep(p, s, Gathered(r)))
  {
    var t := SenderStep(p, s, Gathered(r));
    assert CallOk(p, s, r);
    forall q | 0 <= q < p.g ensures CallOk(p, t, q) {
      assert CallOk(p, s, q);
      assert AllTrue(t.sent) ==> t.sent[q];
    }
  }

  lemma FreeKeeps(p: Params, s: Sender, r: nat)
    requires SenderOk(p, s) && SenderCan(p, s, FreeBuffer(r))
    ensures SenderOk(p, SenderStep(p, s, FreeBuffer(r)))
  {
    var t := SenderStep(p, s, FreeBuffer(r));
    assert CallOk(p, s, r);
    forall q | 0 <= q < p.g ensures CallOk(p, t, q) {
      assert CallOk(p, s, q);
    }
  }

  // ---- one destination ----

  /** The coroutine of a call for one destination. */
  datatype LinkPc =
    | Rpc      // before PrepareReceive has returned
    | Pushing  // in peer.send
    | Pushed

  /** prepare_receive for one shard, and the task that it starts. */
  datatype HandlerPc =
    | Absent
    | Blocked   // the first handler, in _allocate
    | Queued    // a later one, waiting for malloc_events[id]
    | Receiving // replied; recv_task is in peer.recv
    | Cleaning  // saw the buffer ready, waits for malloc_lock
    | Marking   // removed the malloc event, waits for recv_done_lock
    | Finished

  datatype Dest = Dest(links: seq<LinkPc>, wire: seq<seq<Elem>>, malloc: Option<bool>, ledger: bool, buffer: seq<Elem>,
                       avail: seq<bool>, handlers: seq<HandlerPc>, first: nat, last: nat,
                       allocations: nat, done: bool, dones: nat, crashed: bool)

  datatype DestAction =
    | Arrive(r: nat)                        // PrepareReceive reaches the receiver
    | Reserve(r: nat, junk: seq<Elem>)      // its buffer is allocated
    | Join(r: nat)                          // a queued handler goes on
    | Reply(r: nat)                         // the sender learns of it and starts peer.send
    | Complete(r: nat)                      // peer.send returns
    | Land(r: nat)                          // peer.recv returns
    | Clean(r: nat)
    | MarkDone(r: nat)

  function InitDest(p: Params): Dest {
    Dest(seq(p.g, _ => Rpc), seq(p.g, _ => []), None, false, [], Nones(p.g), seq(p.g, _ => Absent), 0, 0, 0, false, 0,
        false)
  }

  predicate Running(h: HandlerPc) { h.Receiving? || Landed(h) }

  predicate Landed(h: HandlerPc) { h.Cleaning? || h.Marking? || h.Finished? }

  predicate DestCan(p: Params, s: Sender, d: Dest, a: DestAction) {
    a.r < p.g && |s.calls| == p.g && |d.links| == |d.wire| == |d.avail| == |d.handlers| == p.g && InBounds(p, a.r) &&
    match a
    case Arrive(r) => s.calls[r] == Sending && d.handlers[r] == Absent
    case Reserve(r, junk) => d.handlers[r] == Blocked && |junk| == |p.tensor|
    case Join(r) => d.handlers[r] == Queued && d.malloc == Some(true)
    case Reply(r) => Running(d.handlers[r]) && d.links[r] == Rpc && |s.buffer| == |p.tensor|
    case Complete(r) => d.links[r] == Pushing
    case Land(r) => d.handlers[r] == Receiving && d.links[r] != Rpc && |d.buffer| == |p.tensor|
        && |d.wire[r]| == ShardOf(p, r).length
    case Clean(r) => d.handlers[r] == Cleaning
    case MarkDone(r) => d.handlers[r] == Marking
  }

  function DestStep(p: Params, s: Sender, d: Dest, a: DestAction): Dest
    requires DestCan(p, s, d, a)
  {
    match a
    case Arrive(r) =>
      if d.malloc == None
      then d.(malloc := Some(false), handlers := d.handlers[r := Blocked], first := r)
      else d.(handlers := d.handlers[r := Queued])
    case Reserve(r, junk) =>
      d.(malloc := Some(true), ledger := true, buffer := junk, avail := Nones(p.g), allocations := d.allocations + 1,
         handlers := d.handlers[r := Receiving])
    case Join(r) =>
      if d.ledger then d.(handlers := d.handlers[r := Receiving]) else d.(crashed := true)
    case Reply(r) =>
      d.(links := d.links[r := Pushing], wire := d.wire[r := Slice(s.buffer, ShardOf(p, r))])
    case Complete(r) =>
      d.(links := d.links[r := Pushed])
    case Land(r) =>
      var avail := d.avail[r := true];
      var d' := d.(buffer := Blit(d.buffer, ShardOf(p, r), d.wire[r]), avail := avail);
      if AllTrue(avail) then d'.(handlers := d.handlers[r := Cleaning], last := r)
      else d'.(handlers := d.handlers[r := Finished])
    case Clean(r) =>
      d.(malloc := None, handlers := d.handlers[r := Marking])
    case MarkDone(r) =>
      if d.ledger then d.(done := true, dones := d.dones + 1, handlers := d.handlers[r := Finished])
      else d.(crashed := true)
  }

  ghost predicate DestOk(p: Params, calls: seq<CallPc>, d: Dest)
    requires |calls| == p.g
  {
    && |d.links| == p.g && |d.wire| == p.g && |d.avail| == p.g && |d.handlers| == p.g && !d.crashed && DestPhase(p, d)
    && (forall r :: 0 <= r < p.g ==> HandlerOk(p, d, r) && LinkOk(p, calls[r], d.links[r], d.handlers[r], d.wire[r], r))
  }

  ghost predicate DestPhase(p: Params, d: Dest)
    requires |d.handlers| == p.g
  {
    if AllTrue(d.avail) then
      && d.ledger && d.allocations == 1 && |d.buffer| == |p.tensor|
      && d.last < p.g && Landed(d.handlers[d.last])
      && d.malloc == (if d.handlers[d.last] == Cleaning then Some(true) else None)
      && d.dones == (if d.handlers[d.last] == Finished then 1 else 0) && d.done == (d.dones == 1)
    else
      !d.done && d.dones == 0 &&
      match d.malloc
      case None => !d.ledger && d.allocations == 0
      case Some(false) => !d.ledger && d.allocations == 0 && d.first < p.g && d.handlers[d.first] == Blocked
      case Some(true) => d.ledger && d.allocations == 1 && |d.buffer| == |p.tensor|
  }

  ghost predicate HandlerOk(p: Params, d: Dest, r: nat)
    requires r < p.g && |d.handlers| == |d.avail| == p.g
  {
    && d.avail[r] == Landed(d.handlers[r])
    && (d.avail[r] ==> Copied(p, d.buffer, r))
    && match d.handlers[r]
       case Absent => true
       case Blocked => d.malloc == Some(false) && d.first == r
       case Queued => d.malloc != None
       case Receiving => d.malloc == Some(true) && d.allocations == 1
       case Cleaning => AllTrue(d.avail) && d.last == r
       case Marking => AllTrue(d.avail) && d.last == r
       case Finished => d.allocations == 1
  }

  /** How a call, its coroutine for the destination and the destination's handler depend on one another. */
  predicate LinkOk(p: Params, call: CallPc, link: LinkPc, h: HandlerPc, wire: seq<Elem>, r: nat)
    requires r < p.g
  {
    && InBounds(p, r)
    && (h != Absent ==> HasData(p, r) && call in {Sending, Freeing, Returned})
    && (link != Rpc ==> Running(h) && wire == Slice(p.tensor, ShardOf(p, r)))
    && (Landed(h) ==> link != Rpc)
    && (call == Freeing || (call == Returned && HasData(p, r)) ==> link == Pushed)
  }

  lemma InitDestOk(p: Params)
    ensures DestOk(p, InitSender(p).calls, InitDest(p))
  {
    var d := InitDest(p);
    assert !d.avail[0];
    forall r | 0 <= r < p.g ensures InBounds(p, r) { ShardBounds(p, r); }
  }

  /** A step of the sender keeps the relation to each destination. */
  lemma SenderKeepsDest(p: Params, s: Sender, a: SendAction, d: Dest)
    requires SenderOk(p, s) && SenderCan(p, s, a) && DestOk(p, s.calls, d)
    requires a.Gathered? ==> d.links[a.r] == Pushed
    ensures |SenderStep(p, s, a).calls| == p.g && DestOk(p, SenderStep(p, s, a).calls, d)
  {
    SenderKeeps(p, s, a);
    var calls := SenderStep(p, s, a).calls;
    assert CallOk(p, s, a.r);
    forall r | 0 <= r < p.g ensures LinkOk(p, calls[r], d.links[r], d.handlers[r], d.wire[r], r) {
      assert LinkOk(p, s.calls[r], d.links[r], d.handlers[r], d.wire[r], r);
    }
  }

  lemma DestKeeps(p: Params, s: Sender, d: Dest, a: DestAction)
    requires SenderOk(p, s) && DestOk(p, s.calls, d) && DestCan(p, s, d, a)
    ensures DestOk(p, s.calls, DestStep(p, s, d, a))
  {
    assert HandlerOk(p, d, a.r) && LinkOk(p, s.calls[a.r], d.links[a.r], d.handlers[a.r], d.wire[a.r], a.r)
        && CallOk(p, s, a.r);
    match a
    case Arrive(r) => ArriveKeeps(p, s, d, r);
    case Reserve(r, junk) => ReserveKeeps(p, s, d, r, junk);
    case Join(r) => OthersKeep(p, s, d, a);
    case Reply(r) => OthersKeep(p, s, d, a);
    case Complete(r) => OthersKeep(p, s, d, a);
    case Land(r) => LandKeeps(p, s, d, r);
    case Clean(r) => OthersKeep(p, s, d, a);
    case MarkDone(r) => OthersKeep(p, s, d, a);
  }

  lemma ArriveKeeps(p: Params, s: Sender, d: Dest, r: nat)
    requires SenderOk(p, s) && DestOk(p, s.calls, d) && DestCan(p, s, d, Arrive(r))
    ensures DestOk(p, s.calls, DestStep(p, s, d, Arrive(r)))
  {
    var e := DestStep(p, s, d, Arrive(r));
    assert !d.avail[r] && !AllTrue(d.avail) && HandlerOk(p, d, r);
    assert LinkOk(p, s.calls[r], d.links[r], d.handlers[r], d.wire[r], r) && CallOk(p, s, r);
    forall q | 0 <= q < p.g
      ensures HandlerOk(p, e, q) && LinkOk(p, s.calls[q], e.links[q], e.handlers[q], e.wire[q], q) {
      assert HandlerOk(p, d, q) && LinkOk(p, s.calls[q], d.links[q], d.handlers[q], d.wire[q], q);
    }
  }

  lemma ReserveKeeps(p: Params, s: Sender, d: Dest, r: nat, junk: seq<Elem>)
    requires SenderOk(p, s) && DestOk(p, s.calls, d) && DestCan(p, s, d, Reserve(r, junk))
    ensures DestOk(p, s.calls, DestStep(p, s, d, Reserve(r, junk)))
  {
    var e := DestStep(p, s, d, Reserve(r, junk));
    assert HandlerOk(p, d, r) && !e.avail[0];
    assert !AllTrue(d.avail) by { assert !d.avail[r]; }
    forall q | 0 <= q < p.g
      ensures HandlerOk(p, e, q) && LinkOk(p, s.calls[q], e.links[q], e.handlers[q], e.wire[q], q) {
      assert HandlerOk(p, d, q) && LinkOk(p, s.calls[q], d.links[q], d.handlers[q], d.wire[q], q);
    }
  }

  lemma LandKeeps(p: Params, s: Sender, d: Dest, r: nat)
    requires SenderOk(p, s) && DestOk(p, s.calls, d) && DestCan(p, s, d, Land(r))
    ensures DestOk(p, s.calls, DestStep(p, s, d, Land(r)))
  {
    var e := DestStep(p, s, d, Land(r));
    assert HandlerOk(p, d, r) && LinkOk(p, s.calls[r], d.links[r], d.handlers[r], d.wire[r], r);
    assert !AllTrue(d.avail) by { assert !d.avail[r]; }
    BlitKeeps(p, d.buffer, r);
    forall q | 0 <= q < p.g
      ensures HandlerOk(p, e, q) && LinkOk(p, s.calls[q], e.links[q], e.handlers[q], e.wire[q], q) {
      assert HandlerOk(p, d, q) && LinkOk(p, s.calls[q], d.links[q], d.handlers[q], d.wire[q], q);
      assert AllTrue(e.avail) ==> e.avail[q];
    }
  }

  /** Steps that do not change what has landed. */
  lemma OthersKeep(p: Params, s: Sender, d: Dest, a: DestAction)
    requires SenderOk(p, s) && DestOk(p, s.calls, d) && DestCan(p, s, d, a)
    requires a.Join? || a.Reply? || a.Complete? || a.Clean? || a.MarkDone?
    ensures DestOk(p, s.calls, DestStep(p, s, d, a))
  {
    var e, r := DestStep(p, s, d, a), a.r;
    assert HandlerOk(p, d, r) && LinkOk(p, s.calls[r], d.links[r], d.handlers[r], d.wire[r], r) && CallOk(p, s, r);
    assert AllTrue(d.avail) ==> d.avail[r];
    forall q | 0 <= q < p.g
      ensures HandlerOk(p, e, q) && LinkOk(p, s.calls[q], e.links[q], e.handlers[q], e.wire[q], q) {
      assert HandlerOk(p, d, q) && LinkOk(p, s.calls[q], d.links[q], d.handlers[q], d.wire[q], q);
      assert AllTrue(d.avail) ==> d.avail[q];
    }
  }
}
