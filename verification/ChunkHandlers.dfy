/**
 The handlers of both sidecars on the state that they update in place. Each method is the code between
 two awaits, takes one step of the state machine and keeps its invariant; `calls`, `links` and `handlers`
 say where each coroutine has got to.
*/
module ChunkHandlers {
  import opened Options
  import opened ShmManager
  import opened ChunkTransfer
  import opened ChunkTransferTheorems

  /** A buffer with its storage, sharded as the transfer's parameters say. */
  ghost predicate BufferOk(p: Params, buffer: SharedMemoryBuffer, data: array<Elem>)
    reads buffer
  {
    && data.Length == buffer.size == |p.tensor| && buffer.isSharded
    && buffer.shards == FirstShards(|p.tensor|, p.g, p.g) && |buffer.available| == p.g
    && buffer.ready == AllTrue(buffer.available)
  }

  /** shard.data.copy_(source) */
  method CopyShard(data: array<Elem>, s: Shard, source: seq<Elem>)
    requires s.offset + s.length <= data.Length && |source| == s.length
    modifies data
    ensures data[..] == Blit(old(data[..]), s, source)
  {
    for i := 0 to s.length
      invariant forall j :: 0 <= j < data.Length ==>
                  data[j] == if s.offset <= j < s.offset + i then source[j - s.offset] else old(data[j])
    {
      data[s.offset + i] := source[i];
    }
  }

  /** _allocate followed by create_shards. */
  method NewBuffer(p: Params, data: array<Elem>) returns (buffer: SharedMemoryBuffer)
    requires data.Length == |p.tensor|
    ensures fresh(buffer) && BufferOk(p, buffer, data) && buffer.available == Nones(p.g)
  {
    buffer := new SharedMemoryBuffer(|p.tensor|, Window(0, 0));
    var ok := buffer.CreateShards(p.g);
    assert !buffer.available[0];
    assert forall i :: 0 <= i < p.g ==> !buffer.available[i];
    assert buffer.available == Nones(p.g);
  }

  /** The slots that _allocate returns, with whatever they hold. */
  method Storage(junk: seq<Elem>) returns (storage: array<Elem>)
    ensures fresh(storage) && storage[..] == junk
  {
    storage := new Elem[|junk|](i requires 0 <= i < |junk| => junk[i]);
  }

  /** all(shards_sent) */
  method AllSent(sent: seq<bool>) returns (all: bool)
    ensures all <==> AllTrue(sent)
  {
    all := true;
    for i := 0 to |sent|
      invariant all <==> forall j :: 0 <= j < i ==> sent[j]
    {
      all := all && sent[i];
    }
  }

  /** The fields of SidecarSender for one chunk. */
  class ChunkSender {
    const p: Params
    var mallocEvent: Option<bool>
    var doneEvent: Option<bool>
    var ledger: bool
    var shardsSent: seq<bool>
    var buffer: SharedMemoryBuffer
    var data: array<Elem>
    var calls: seq<CallPc>
    var first: nat
    var freer: nat
    var allocations: nat
    var frees: nat

    /** Before the allocation there is no buffer to speak of. */
    function State(): Sender
      reads this, buffer, data
    {
      var ready := mallocEvent == Some(true);
      Sender(mallocEvent, doneEvent, ledger,
             if ready then data[..] else [], if ready then buffer.available else Nones(p.g),
             shardsSent, calls, first, freer, allocations, frees, false)
    }

    ghost predicate Valid()
      reads this, buffer, data
    {
      SenderOk(p, State()) && Backed()
    }

    ghost predicate Backed()
      reads this, buffer
    {
      mallocEvent == Some(true) ==> BufferOk(p, buffer, data)
    }

    constructor (p: Params)
      ensures Valid() && this.p == p && State() == InitSender(p) && fresh(buffer) && fresh(data)
    {
      this.p := p;
      mallocEvent, doneEvent, ledger, shardsSent := None, None, false, Nones(p.g);
      buffer := new SharedMemoryBuffer(0, Window(0, 0));
      data := new Elem[0];
      calls, first, freer, allocations, frees := seq(p.g, _ => Idle), 0, 0, 0, 0;
      new;
      InitSenderOk(p);
    }

    /** A step of the state machine keeps the invariant. */
    lemma Keeps(s: Sender, a: SendAction)
      requires SenderOk(p, s) && SenderCan(p, s, a) && State() == SenderStep(p, s, a) && Backed()
      ensures Valid()
    {
      SenderKeeps(p, s, a);
    }

    /** The part of _concurrent_copy_send under event_lock. */
    method Enter(r: nat) returns (isFirst: bool)
      requires Valid() && SenderCan(p, State(), Call(r))
      modifies this`mallocEvent, this`doneEvent, this`calls, this`first
      ensures Valid() && State() == SenderStep(p, old(State()), Call(r))
      ensures isFirst <==> old(mallocEvent) == None
    {
      ghost var before := State();
      isFirst := false;
      if mallocEvent == None {
        isFirst := true;
        mallocEvent, doneEvent := Some(false), Some(false);
        calls, first := calls[r := Allocating], r;
      } else {
        calls := calls[r := Waiting];
      }
      Keeps(before, Call(r));
    }

    /** The first call, once _allocate has found room for `storage`. */
    method Allocated(r: nat, storage: array<Elem>)
      requires Valid() && SenderCan(p, State(), Allocate(r, storage[..]))
      modifies this`mallocEvent, this`doneEvent, this`ledger, this`shardsSent, this`buffer, this`data, this`calls,
          this`allocations
      ensures Valid() && State() == SenderStep(p, old(State()), Allocate(r, storage[..]))
      ensures fresh(buffer) && data == storage
    {
      ghost var before := State();
      Adopt(storage);
      StartShard(r);
      Keeps(before, Allocate(r, storage[..]));
    }

    /** The first call, when _allocate raises: the event stays as it is. */
    method AllocateRaised(r: nat)
      requires Valid() && SenderCan(p, State(), Refuse(r))
      modifies this`calls
      ensures Valid() && State() == SenderStep(p, old(State()), Refuse(r))
    {
      ghost var before := State();
      calls := calls[r := Failed];
      Keeps(before, Refuse(r));
    }

    /** The shards, the ledger entry and the event. */
    method Adopt(storage: array<Elem>)
      requires storage.Length == |p.tensor|
      modifies this`mallocEvent, this`ledger, this`shardsSent, this`buffer, this`data, this`allocations
      ensures mallocEvent == Some(true) && BufferOk(p, buffer, data) && fresh(buffer) && data == storage
      ensures State() == old(State()).(malloc := Some(true), ledger := true, buffer := storage[..],
                avail := Nones(p.g), sent := Nones(p.g),
                                       allocations := old(allocations) + 1)
    {
      buffer := NewBuffer(p, storage);
      data := storage;
      ledger, shardsSent := true, Nones(p.g);
      mallocEvent := Some(true);
      allocations := allocations + 1;
    }

    /** A later call, once the malloc event is set. */
    method Resumed(r: nat)
      requires Valid() && SenderCan(p, State(), Resume(r))
      modifies this`doneEvent, this`calls, buffer
      ensures Valid() && State() == SenderStep(p, old(State()), Resume(r))
    {
      ghost var before := State();
      LedgerStands(p, before, r);
      StartShard(r);
      Keeps(before, Resume(r));
    }

    /** What every call does once there is a buffer. */
    method StartShard(r: nat)
      requires mallocEvent == Some(true) && BufferOk(p, buffer, data) && |calls| == p.g && r < p.g
      modifies this`calls, this`doneEvent, buffer
      ensures BufferOk(p, buffer, data) && State() == StartCopy(p, old(State()), r)
    {
      FirstShardsAt(|p.tensor|, p.g, p.g, r);
      var shard := buffer.shards[r];
      if shard.length == 0 {
        calls := calls[r := Returned];
        buffer.MarkShardReady(r);
        if buffer.ready {
          doneEvent := Some(true);
        }
      } else {
        calls := calls[r := Copying];
      }
    }

    /** The copy on the shard's own stream, up to the point where the call starts to send. */
    method CopyAndMark(r: nat)
      requires Valid() && SenderCan(p, State(), CopyDone(r))
      modifies this`calls, this`doneEvent, buffer, data
      ensures Valid() && State() == SenderStep(p, old(State()), CopyDone(r))
    {
      ghost var before := State();
      assert CallOk(p, before, r);
      CopyIn(r);
      Keeps(before, CopyDone(r));
    }

    method CopyIn(r: nat)
      requires r < p.g && r < |calls| && BufferOk(p, buffer, data) && InBounds(p, r)
      modifies this`calls, this`doneEvent, buffer, data
      ensures BufferOk(p, buffer, data)
      ensures data[..] == Blit(old(data[..]), ShardOf(p, r), Slice(p.tensor, ShardOf(p, r)))
      ensures buffer.available == old(buffer.available)[r := true] && calls == old(calls)[r := Sending]
      ensures doneEvent == if AllTrue(buffer.available) then Some(true) else old(doneEvent)
    {
      FirstShardsAt(|p.tensor|, p.g, p.g, r);
      var shard := buffer.shards[r];
      CopyShard(data, shard, p.tensor[shard.offset..shard.offset + shard.length]);
      calls := calls[r := Sending];
      buffer.MarkShardReady(r);
      if buffer.ready {
        doneEvent := Some(true);
      }
    }

    /** After gather, for inter-node destinations; `last` says that the caller goes on to _free. */
    method AfterGather(r: nat) returns (last: bool)
      requires Valid() && SenderCan(p, State(), Gathered(r))
      modifies this`shardsSent, this`ledger, this`calls, this`freer
      ensures Valid() && State() == SenderStep(p, old(State()), Gathered(r))
      ensures last <==> State().calls[r] == Freeing
    {
      ghost var before := State();
      LedgerStands(p, before, r);
      last := RecordSent(r);
      Keeps(before, Gathered(r));
    }

    /** The part under sent_lock. */
    method RecordSent(r: nat) returns (last: bool)
      requires r < |shardsSent| && r < |calls|
      modifies this`shardsSent, this`ledger, this`calls, this`freer
      ensures shardsSent == old(shardsSent)[r := true] && (last <==> AllTrue(shardsSent))
      ensures ledger == (old(ledger) && !last) && freer == if last then r else old(freer)
      ensures calls == old(calls)[r := if last then Freeing else Returned]
    {
      shardsSent := shardsSent[r := true];
      last := AllSent(shardsSent);
      if last {
        ledger := false;
        calls, freer := calls[r := Freeing], r;
      } else {
        calls := calls[r := Returned];
      }
    }

    /** The last call, once _free has given the slots back. */
    method Freed(r: nat)
      requires Valid() && SenderCan(p, State(), FreeBuffer(r))
      modifies this`calls, this`frees
      ensures Valid() && State() == SenderStep(p, old(State()), FreeBuffer(r))
    {
      ghost var before := State();
      frees, calls := frees + 1, calls[r := Returned];
      Keeps(before, FreeBuffer(r));
    }

    /** Whichever part of a call comes next. */
    method Act(a: SendAction)
      requires Valid() && SenderCan(p, State(), a)
      modifies this, buffer, data
      ensures Valid() && State() == SenderStep(p, old(State()), a)
      ensures fresh({buffer, data} - {old(buffer), old(data)})
    {
      match a {
        case Call(r) => var _ := Enter(r);
        case Allocate(r, junk) =>
          var storage := Storage(junk);
          Allocated(r, storage);
        case Refuse(r) => AllocateRaised(r);
        case Resume(r) => Resumed(r);
        case CopyDone(r) => CopyAndMark(r);
        case Gathered(r) => var _ := AfterGather(r);
        case FreeBuffer(r) => Freed(r);
      }
    }
  }

  /** A call that has not recorded its shard as sent still finds the ledger entry. */
  lemma LedgerStands(p: Params, s: Sender, r: nat)
    requires SenderOk(p, s) && r < p.g && (s.calls[r] == Sending || (s.calls[r] == Waiting && s.malloc == Some(true)))
    ensures s.ledger && s.malloc == Some(true)
  {
    assert CallOk(p, s, r);
  }

  /** The fields of SidecarReceiver for one chunk, and the sender's coroutines for this destination. */
  class ChunkReceiver {
    const p: Params
    var mallocEvent: Option<bool>
    var ledger: bool
    var buffer: SharedMemoryBuffer
    var data: array<Elem>
    var done: bool
    var links: seq<LinkPc>
    var wire: seq<seq<Elem>>
    var handlers: seq<HandlerPc>
    var first: nat
    var last: nat
    var allocations: nat
    var dones: nat

    function State(): Dest
      reads this, buffer, data
    {
      Dest(links, wire, mallocEvent, ledger,
           if ledger then data[..] else [], if ledger then buffer.available else Nones(p.g),
           handlers, first, last, allocations, done, dones, false)
    }

    ghost predicate Valid(s: Sender)
      reads this, buffer, data
    {
      SenderOk(p, s) && DestOk(p, s.calls, State()) && Backed()
    }

    ghost predicate Backed()
      reads this, buffer
    {
      ledger ==> BufferOk(p, buffer, data)
    }

    constructor (p: Params)
      ensures this.p == p && State() == InitDest(p) && Valid(InitSender(p)) && fresh(buffer) && fresh(data)
    {
      this.p := p;
      mallocEvent, ledger, done := None, false, false;
      buffer := new SharedMemoryBuffer(0, Window(0, 0));
      data := new Elem[0];
      links, wire, handlers := seq(p.g, _ => Rpc), seq(p.g, _ => []), seq(p.g, _ => Absent);
      first, last, allocations, dones := 0, 0, 0, 0;
      new;
      InitSenderOk(p);
      InitDestOk(p);
    }

    /** A step of the state machine keeps the invariant. */
    lemma Keeps(s: Sender, d: Dest, a: DestAction)
      requires SenderOk(p, s) && DestOk(p, s.calls, d) && DestCan(p, s, d, a) && State() == DestStep(p, s, d, a)
      requires Backed()
      ensures Valid(s)
    {
      DestKeeps(p, s, d, a);
    }

    /** The part of prepare_receive under malloc_lock. */
    method Arrived(ghost s: Sender, r: nat) returns (isFirst: bool)
      requires Valid(s) && DestCan(p, s, State(), Arrive(r))
      modifies this`mallocEvent, this`handlers, this`first
      ensures Valid(s) && State() == DestStep(p, s, old(State()), Arrive(r))
      ensures isFirst <==> old(mallocEvent) == None
    {
      ghost var before := State();
      isFirst := false;
      if mallocEvent == None {
        isFirst := true;
        mallocEvent := Some(false);
        handlers, first := handlers[r := Blocked], r;
      } else {
        handlers := handlers[r := Queued];
      }
      Keeps(s, before, Arrive(r));
    }

    /** The first handler, once _allocate has found room. */
    method Reserved(ghost s: Sender, r: nat, storage: array<Elem>)
      requires Valid(s) && DestCan(p, s, State(), Reserve(r, storage[..]))
      modifies this`mallocEvent, this`ledger, this`buffer, this`data, this`handlers, this`allocations
      ensures Valid(s) && State() == DestStep(p, s, old(State()), Reserve(r, storage[..]))
      ensures fresh(buffer) && data == storage
    {
      ghost var before := State();
      Adopt(r, storage);
      Keeps(s, before, Reserve(r, storage[..]));
    }

    /** The shards, the ledger entry and the event. */
    method Adopt(r: nat, storage: array<Elem>)
      requires storage.Length == |p.tensor| && r < |handlers|
      modifies this`mallocEvent, this`ledger, this`buffer, this`data, this`handlers, this`allocations
      ensures Backed() && fresh(buffer) && data == storage
      ensures State() == old(State()).(malloc := Some(true), ledger := true, buffer := storage[..], avail := Nones(p.g),
                                       allocations := old(allocations) + 1, handlers := old(handlers)[r := Receiving])
    {
      buffer := NewBuffer(p, storage);
      data := storage;
      ledger := true;
      mallocEvent := Some(true);
      allocations, handlers := allocations + 1, handlers[r := Receiving];
    }

    /** A later handler, once the malloc event is set. */
    method Joined(ghost s: Sender, r: nat)
      requires Valid(s) && DestCan(p, s, State(), Join(r))
      modifies this`handlers
      ensures Valid(s) && State() == DestStep(p, s, old(State()), Join(r))
    {
      ghost var before := State();
      handlers := handlers[r := Receiving];
      Keeps(s, before, Join(r));
    }

    /** The sender learns that PrepareReceive has returned, and hands its shard to peer.send. */
    method Replied(s: Sender, r: nat)
      requires Valid(s) && DestCan(p, s, State(), Reply(r))
      modifies this`links, this`wire
      ensures Valid(s) && State() == DestStep(p, s, old(State()), Reply(r))
    {
      ghost var before := State();
      links, wire := links[r := Pushing], wire[r := Slice(s.buffer, ShardOf(p, r))];
      Keeps(s, before, Reply(r));
    }

    /** peer.send returns. */
    method Completed(ghost s: Sender, r: nat)
      requires Valid(s) && DestCan(p, s, State(), Complete(r))
      modifies this`links
      ensures Valid(s) && State() == DestStep(p, s, old(State()), Complete(r))
    {
      ghost var before := State();
      links := links[r := Pushed];
      Keeps(s, before, Complete(r));
    }

    /**
     recv_task after peer.recv has put `message` into the shard; `complete` says that it goes on to mark the
     chunk done.
     */
    method ShardLanded(ghost s: Sender, r: nat, message: seq<Elem>) returns (complete: bool)
      requires Valid(s) && DestCan(p, s, State(), Land(r)) && message == wire[r]
      modifies this`handlers, this`last, buffer, data
      ensures Valid(s) && State() == DestStep(p, s, old(State()), Land(r))
      ensures complete <==> State().handlers[r] == Cleaning
    {
      ghost var before := State();
      assert HandlerOk(p, State(), r);
      complete := Deliver(r, message);
      Keeps(s, before, Land(r));
    }

    method Deliver(r: nat, message: seq<Elem>) returns (complete: bool)
      requires r < p.g && r < |handlers| && BufferOk(p, buffer, data) && InBounds(p, r)
      requires |message| == ShardOf(p, r).length
      modifies this`handlers, this`last, buffer, data
      ensures BufferOk(p, buffer, data) && data[..] == Blit(old(data[..]), ShardOf(p, r), message)
      ensures buffer.available == old(buffer.available)[r := true] && (complete <==> AllTrue(buffer.available))
      ensures handlers == old(handlers)[r := if complete then Cleaning else Finished]
                && last == if complete then r else old(last)
    {
      FirstShardsAt(|p.tensor|, p.g, p.g, r);
      var shard := buffer.shards[r];
      CopyShard(data, shard, message);
      buffer.MarkShardReady(r);
      complete := buffer.ready;
      if complete {
        handlers, last := handlers[r := Cleaning], r;
      } else {
        handlers := handlers[r := Finished];
      }
    }

    /** The last recv_task under malloc_lock. */
    method CleanUp(ghost s: Sender, r: nat)
      requires Valid(s) && DestCan(p, s, State(), Clean(r))
      modifies this`mallocEvent, this`handlers
      ensures Valid(s) && State() == DestStep(p, s, old(State()), Clean(r))
    {
      ghost var before := State();
      if mallocEvent != None {
        mallocEvent := None;
      }
      handlers := handlers[r := Marking];
      Keeps(s, before, Clean(r));
    }

    /** The last recv_task under recv_done_lock. */
    method MarkChunkDone(ghost s: Sender, r: nat)
      requires Valid(s) && DestCan(p, s, State(), MarkDone(r))
      modifies this`done, this`handlers, this`dones
      ensures Valid(s) && State() == DestStep(p, s, old(State()), MarkDone(r))
      ensures done && data[..] == p.tensor
    {
      ghost var before := State();
      LandedIsTensor(p, s.calls, before);
      assert HandlerOk(p, before, r);
      done := true;
      dones, handlers := dones + 1, handlers[r := Finished];
      Keeps(s, before, MarkDone(r));
    }

    /** Whichever part of a handler, or of a coroutine of the sender, comes next. */
    method Act(s: Sender, a: DestAction)
      requires Valid(s) && DestCan(p, s, State(), a)
      modifies this, buffer, data
      ensures Valid(s) && State() == DestStep(p, s, old(State()), a)
      ensures fresh({buffer, data} - {old(buffer), old(data)})
    {
      match a {
        case Reply(r) => Replied(s, r);
        case Complete(r) => Completed(s, r);
        case Land(r) => ReceiveAct(s, a);
        case Clean(r) => ReceiveAct(s, a);
        case MarkDone(r) => ReceiveAct(s, a);
        case _ => PrepareAct(s, a);
      }
    }

    /** The next part of prepare_receive. */
    method PrepareAct(ghost s: Sender, a: DestAction)
      requires Valid(s) && DestCan(p, s, State(), a) && (a.Arrive? || a.Reserve? || a.Join?)
      modifies this
      ensures Valid(s) && State() == DestStep(p, s, old(State()), a)
      ensures fresh({buffer, data} - {old(buffer), old(data)})
    {
      match a {
        case Arrive(r) => var _ := Arrived(s, r);
        case Reserve(r, junk) =>
          var storage := Storage(junk);
          Reserved(s, r, storage);
        case Join(r) => Joined(s, r);
      }
    }

    /** The next part of recv_task. */
    method ReceiveAct(ghost s: Sender, a: DestAction)
      requires Valid(s) && DestCan(p, s, State(), a) && (a.Land? || a.Clean? || a.MarkDone?)
      modifies this, buffer, data
      ensures Valid(s) && State() == DestStep(p, s, old(State()), a)
      ensures buffer == old(buffer) && data == old(data)
    {
      match a {
        case Land(r) => var _ := ShardLanded(s, r, wire[r]);
        case Clean(r) => CleanUp(s, r);
        case MarkDone(r) => MarkChunkDone(s, r);
      }
    }
  }
}
