/**
 The sender and the receivers of one chunk together: any interleaving of their handlers is a run of the
 state machine, so its theorems are about the memory that the handlers write.
*/
module ChunkTransferRun {
  import opened ShmManager
  import opened ChunkTransfer
  import opened ChunkTransferTheorems
  import opened ChunkHandlers

  datatype RawReached = RawReached(p: Params, st: State)

  ghost const LEAST: Params := RawParams(1, [], 1, 1)

  /** A state that satisfies the joint invariant. */
  type Reached = x: RawReached | Inv(x.p, x.st)
    ghost witness (InitInv(LEAST, 0); RawReached(LEAST, Init(LEAST, 0)))

  ghost function Advance(x: Reached, a: Action): (y: Reached)
    requires Can(x.p, x.st, a)
    ensures y == RawReached(x.p, Next(x.p, x.st, a)) && |y.st.dests| == |x.st.dests|
  {
    NextKeeps(x.p, x.st, a);
    RawReached(x.p, Next(x.p, x.st, a))
  }

  lemma SenderReached(x: Reached)
    ensures SenderOk(x.p, x.st.sender)
  {
  }

  lemma DestReached(x: Reached, i: nat)
    requires i < |x.st.dests|
    ensures SenderOk(x.p, x.st.sender) && DestOk(x.p, x.st.sender.calls, x.st.dests[i])
  {
  }

  ghost predicate Keeps(before: map<object, nat>, after: map<object, nat>) {
    forall o {:trigger o in before} :: o in before ==> o in after && after[o] == before[o]
  }

  ghost function Owning(owner: map<object, nat>, a: object, b: object, k: nat): (r: map<object, nat>)
    requires (a in owner ==> owner[a] == k) && (b in owner ==> owner[b] == k)
    ensures Keeps(owner, r) && r.Keys == owner.Keys + {a, b} && r[a] == k && r[b] == k
  {
    owner[a := k][b := k]
  }

  /** A handler of the receiver whose state is the `i`-th of `x`. */
  method ActAt(r: ChunkReceiver, s: Sender, d: DestAction, ghost x: Reached, i: nat)
    requires i < |x.st.dests| && r.p == x.p && s == x.st.sender && r.State() == x.st.dests[i] && r.Backed()
    requires DestCan(x.p, s, x.st.dests[i], d)
    modifies r, r.buffer, r.data
    ensures r.State() == DestStep(x.p, s, x.st.dests[i], d) && r.Backed()
    ensures fresh({r.buffer, r.data} - {old(r.buffer), old(r.data)})
  {
    DestReached(x, i);
    r.Act(s, d);
  }

  class Transfer {
    const p: Params
    const sender: ChunkSender
    const receivers: seq<ChunkReceiver>
    ghost var now: Reached
    ghost var owner: map<object, nat>  // whose each object is: the number of a receiver, or |receivers|

    ghost predicate Valid()
      reads this, owner.Keys
    {
      && now.p == p && |receivers| == |now.st.dests| && this !in owner && SenderIs(now.st.sender)
      && (forall i {:trigger ReceiverIs(i)} :: 0 <= i < |receivers| ==> ReceiverIs(i))
    }

    ghost predicate Owned(o: object, k: nat)
      reads this
    {
      o in owner && owner[o] == k
    }

    ghost predicate SenderIs(s: Sender)
      reads this, owner.Keys
    {
      && Owned(sender, |receivers|) && Owned(sender.buffer, |receivers|) && Owned(sender.data, |receivers|)
      && sender.p == p && sender.State() == s && sender.Backed()
    }

    ghost predicate ReceiverIs(i: nat)
      requires i < |receivers| && |receivers| == |now.st.dests|
      reads this, owner.Keys
    {
      ReceiverHas(receivers[i], i, now.st.dests[i])
    }

    ghost predicate ReceiverHas(r: ChunkReceiver, i: nat, d: Dest)
      reads this, owner.Keys
    {
      && Owned(r, i) && Owned(r.buffer, i) && Owned(r.data, i)
      && r.p == p && r.State() == d && r.Backed()
    }

    ghost predicate SentToAll(r: nat)
      reads receivers
    {
      forall i :: 0 <= i < |receivers| ==> r < |receivers[i].links| && receivers[i].links[r] == Pushed
    }

    lemma LinksAre()
      requires Valid()
      ensures forall i {:trigger receivers[i]} :: 0 <= i < |receivers| ==> receivers[i].links == now.st.dests[i].links
    {
      forall i | 0 <= i < |receivers| ensures receivers[i].links == now.st.dests[i].links { assert ReceiverIs(i); }
    }

    /** asyncio.gather has all of its results for shard `r`. */
    method Gathers(r: nat, ghost dests: seq<Dest>) returns (all: bool)
      requires r < p.g && |receivers| == |dests|
      requires forall i {:trigger receivers[i]} :: 0 <= i < |receivers| ==> receivers[i].links == dests[i].links
      ensures all <==> AllPushed(p, dests, r)
    {
      all := true;
      for i := 0 to |receivers|
        invariant all <==> forall j :: 0 <= j < i ==> |dests[j].links| == p.g && dests[j].links[r] == Pushed
      {
        all := all && |receivers[i].links| == p.g && receivers[i].links[r] == Pushed;
      }
    }

    /** A step of party `k` leaves the others as they were. */
    twostate lemma OthersStay(k: nat)
      requires forall o {:trigger o in old(owner)} :: o in old(owner) && old(owner)[o] != k ==> unchanged(o)
      requires old(Valid()) && |receivers| == |now.st.dests| && Keeps(old(owner), owner)
      ensures k != |receivers| && now.st.sender == old(now).st.sender ==> SenderIs(now.st.sender)
      ensures forall i {:trigger ReceiverIs(i)} ::
                0 <= i < |receivers| && i != k && now.st.dests[i] == old(now).st.dests[i] ==> ReceiverIs(i)
    {
      forall i | 0 <= i < |receivers| && i != k && now.st.dests[i] == old(now).st.dests[i] ensures ReceiverIs(i) {
        assert old(ReceiverIs(i));
      }
    }

    method SendAct(a: SendAction)
      requires Valid() && Can(p, now.st, SendSide(a))
      modifies this, sender, sender.buffer, sender.data
      ensures Valid() && now.st == Next(p, old(now).st, SendSide(a)) && fresh(owner.Keys - old(owner.Keys))
    {
      MoveSender(a);
      now := Advance(now, SendSide(a));
      OthersStay(|receivers|);
    }

    method MoveSender(a: SendAction)
      requires now.p == p && SenderIs(now.st.sender) && Can(p, now.st, SendSide(a))
      modifies this`owner, sender, sender.buffer, sender.data
      ensures SenderIs(SenderStep(p, now.st.sender, a)) && Keeps(old(owner), owner)
      ensures owner.Keys == old(owner.Keys) + {sender.buffer, sender.data} && fresh(owner.Keys - old(owner.Keys))
    {
      SenderReached(now);
      sender.Act(a);
      owner := Owning(owner, sender.buffer, sender.data, |receivers|);
    }

    method DestAct(i: nat, d: DestAction)
      requires Valid() && Can(p, now.st, DestSide(i, d))
      modifies this, receivers[i], receivers[i].buffer, receivers[i].data
      ensures Valid() && now.st == Next(p, old(now).st, DestSide(i, d)) && fresh(owner.Keys - old(owner.Keys))
    {
      assert ReceiverIs(i);
      MoveReceiver(i, d);
      now := Advance(now, DestSide(i, d));
      OthersStay(i);
    }

    method MoveReceiver(i: nat, d: DestAction)
      requires now.p == p && i < |receivers| == |now.st.dests| && ReceiverIs(i) && SenderIs(now.st.sender)
      requires Can(p, now.st, DestSide(i, d))
      requires this !in owner
      modifies this`owner, receivers[i], receivers[i].buffer, receivers[i].data
      ensures ReceiverHas(receivers[i], i, DestStep(p, now.st.sender, now.st.dests[i], d)) && Keeps(old(owner), owner)
      ensures owner.Keys == old(owner.Keys) + {receivers[i].buffer, receivers[i].data}
      ensures fresh(owner.Keys - old(owner.Keys))
    {
      ActAt(receivers[i], sender.State(), d, now, i);
      owner := Owning(owner, receivers[i].buffer, receivers[i].data, i);
    }

    /** One step of the schedule; nothing happens when it is not enabled. */
    method Step(a: Action)
      requires Valid()
      modifies this, owner.Keys
      ensures Valid() && now.st == (if Can(p, old(now).st, a) then Next(p, old(now).st, a) else old(now).st)
                && fresh(owner.Keys - old(owner.Keys))
    {
      match a {
        case SendSide(b) =>
          if SenderCan(p, sender.State(), b) {
            var ready := true;
            if b.Gathered? {
              LinksAre();
              ready := Gathers(b.r, now.st.dests);
            }
            if ready {
              SendAct(b);
            }
          }
        case DestSide(i, d) =>
          if i < |receivers| {
            assert ReceiverIs(i);
            if DestCan(p, sender.State(), receivers[i].State(), d) {
              DestAct(i, d);
            }
          }
      }
    }

    /** Any schedule of the handlers takes the memory through a run of the state machine. */
    method Execute(schedule: seq<Action>)
      requires Valid()
      modifies this, owner.Keys
      ensures Valid() && now.st == Run(p, old(now).st, schedule)
    {
      for k := 0 to |schedule|
        invariant Valid() && fresh(owner.Keys - old(owner.Keys))
        invariant Run(p, now.st, schedule[k..]) == Run(p, old(now).st, schedule)
      {
        assert schedule[k..][0] == schedule[k] && schedule[k..][1..] == schedule[k + 1..];
        Step(schedule[k]);
      }
    }

    constructor (p: Params, sender: ChunkSender, receivers: seq<ChunkReceiver>, ghost owner: map<object, nat>)
      requires sender in owner && owner[sender] == |receivers| && sender.p == p && sender.State() == InitSender(p)
      requires sender.buffer in owner && owner[sender.buffer] == |receivers| && sender.data in owner
      requires owner[sender.data] == |receivers|
      requires forall i {:trigger receivers[i]} :: 0 <= i < |receivers| ==> IsNew(p, receivers[i], i, owner)
      ensures Valid() && this.p == p && this.sender == sender && this.receivers == receivers && this.owner == owner
      ensures now.st == Init(p, |receivers|)
    {
      this.p, this.sender, this.receivers, this.owner := p, sender, receivers, owner;
      InitInv(p, |receivers|);
      now := RawReached(p, Init(p, |receivers|));
    }
  }

  ghost predicate IsNew(p: Params, r: ChunkReceiver, i: nat, owner: map<object, nat>)
    reads r, r.buffer, r.data
  {
    && r in owner && owner[r] == i && r.buffer in owner && owner[r.buffer] == i && r.data in owner && owner[r.data] == i
    && r.p == p && r.State() == InitDest(p) && r.Backed()
  }

  method NewReceivers(p: Params, n: nat) returns (rs: seq<ChunkReceiver>, ghost owner: map<object, nat>)
    ensures |rs| == n && fresh(owner.Keys)
    ensures forall i {:trigger rs[i]} :: 0 <= i < n ==> IsNew(p, rs[i], i, owner)
  {
    rs, owner := [], map[];
    for k := 0 to n
      invariant |rs| == k && fresh(owner.Keys)
      invariant forall i {:trigger rs[i]} :: 0 <= i < k ==> IsNew(p, rs[i], i, owner)
    {
      var r := new ChunkReceiver(p);
      rs, owner := rs + [r], owner[r := k][r.buffer := k][r.data := k];
    }
  }

  /**
   A whole transfer to `n` destinations, under any schedule. The sender frees its slots at most once and
   not before every shard has gone everywhere; a receiver that has marked the chunk done holds the tensor.
   If the schedule runs until nothing can happen any more, all of that has happened exactly if the tensor
   has an element for every rank and a size that the sender's slab does not refuse.
   */
  method Transmit(p: Params, n: nat, schedule: seq<Action>) returns (t: Transfer)
    ensures fresh(t) && t.Valid() && t.p == p && |t.receivers| == n && t.now.st == Run(p, Init(p, n), schedule)
    ensures t.sender.allocations <= 1 && t.sender.frees <= 1
    ensures t.sender.frees == 1 ==> forall r :: 0 <= r < p.g ==> t.SentToAll(r)
    ensures forall i :: 0 <= i < n && t.receivers[i].done ==> t.receivers[i].data[..] == p.tensor
    ensures Quiescent(p, t.now.st) ==> (t.sender.frees == 1 <==> |p.tensor| >= p.g && !Refused(p))
    ensures Quiescent(p, t.now.st) ==> forall i :: 0 <= i < n ==>
              (t.receivers[i].done <==> |p.tensor| >= p.g && !Refused(p))
  {
    var receivers, owner := NewReceivers(p, n);
    var sender := new ChunkSender(p);
    owner := owner[sender := n][sender.buffer := n][sender.data := n];
    t := new Transfer(p, sender, receivers, owner);
    t.Execute(schedule);
    SenderOutcome(t, n, schedule);
    forall i | 0 <= i < n
      ensures t.receivers[i].done ==> t.receivers[i].data[..] == p.tensor
      ensures Quiescent(p, t.now.st) ==> (t.receivers[i].done <==> |p.tensor| >= p.g && !Refused(p))
    {
      ReceiverOutcome(t, n, schedule, i);
    }
  }

  lemma SenderOutcome(t: Transfer, n: nat, schedule: seq<Action>)
    requires t.Valid() && t.now.st == Run(t.p, Init(t.p, n), schedule)
    ensures t.sender.allocations <= 1 && t.sender.frees <= 1
    ensures t.sender.frees == 1 ==> forall r :: 0 <= r < t.p.g ==> t.SentToAll(r)
    ensures Quiescent(t.p, t.now.st) ==> (t.sender.frees == 1 <==> |t.p.tensor| >= t.p.g && !Refused(t.p))
  {
    FreedOnceAllSent(t.p, n, schedule);
    if Quiescent(t.p, t.now.st) { QuiescentIsComplete(t.p, n, schedule); }
    if t.sender.frees == 1 {
      forall r | 0 <= r < t.p.g ensures t.SentToAll(r) {
        assert AllPushed(t.p, t.now.st.dests, r);
        forall i | 0 <= i < |t.receivers|
          ensures t.receivers[i].links == t.now.st.dests[i].links { assert t.ReceiverIs(i); }
      }
    }
  }

  lemma ReceiverOutcome(t: Transfer, n: nat, schedule: seq<Action>, i: nat)
    requires t.Valid() && t.now.st == Run(t.p, Init(t.p, n), schedule) && i < n && |t.receivers| == n
    ensures t.receivers[i].done ==> t.receivers[i].data[..] == t.p.tensor
    ensures Quiescent(t.p, t.now.st) ==> (t.receivers[i].done <==> |t.p.tensor| >= t.p.g && !Refused(t.p))
  {
    assert t.ReceiverIs(i);
    DoneOnceWhole(t.p, n, schedule, i);
    DoneHasLedger(t.now, i);
    if Quiescent(t.p, t.now.st) { QuiescentIsComplete(t.p, n, schedule); }
  }

  lemma DoneHasLedger(x: Reached, i: nat)
    requires i < |x.st.dests|
    ensures x.st.dests[i].done ==> x.st.dests[i].ledger
  {
    DestReached(x, i);
  }
}
