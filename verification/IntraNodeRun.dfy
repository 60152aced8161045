/**
 A chunk that is shared on its node, on the tables and the slab that its handlers update: any interleaving
 is a run of the state machine, and what belongs to other chunks stays as it is.
*/
module IntraNodeRun {
  import opened Options
  import opened ShmManager
  import opened ChunkTransfer
  import opened IntraNode
  import opened IntraNodeProgress
  import opened SavedBuffers
  import opened Sequences

  /** How many references the tables will have left; None if they have no entry. */
  function Answer(st: State): Option<int> {
    if st.refs == None then None else Some(st.refs.value - 1)
  }

  /** The state after an unlink by destination `i`, by what the tables answer. */
  function Noted(st: State, i: nat, left: Option<int>): State
    requires i < |st.dests|
  {
    match left
    case None => st.(notFound := true)
    case Some(n) =>
      if n > 0 then st.(refs := Some(n), dests := st.dests[i := Unlinked])
      else st.(refs := None, dests := st.dests[i := LastOut], freer := i)
  }

  lemma UnlinkIs(p: Params, st: State, i: nat)
    requires Can(p, st, Unlink(i)) && (st.refs.Some? ==> st.saved && st.refs.value > 0)
    ensures Next(p, st, Unlink(i)) == Noted(st, i, Answer(st))
  {
  }

  datatype RawReached = RawReached(p: Params, st: State)

  ghost const LEAST: Params := RawParams(1, [], 1, 1)

  /** A state that satisfies the invariant of the state machine. */
  type Reached = x: RawReached | Inv(x.p, x.st)
    ghost witness (InitInv(LEAST, 1); RawReached(LEAST, Init(LEAST, 1)))

  ghost function Advance(x: Reached, a: Action): (y: Reached)
    requires Can(x.p, x.st, a)
    ensures y == RawReached(x.p, Next(x.p, x.st, a))
  {
    NextKeeps(x.p, x.st, a);
    RawReached(x.p, Next(x.p, x.st, a))
  }

  // ---- what the chunks of a sender share ----

  /** The tables, and the windows of the slab that are in use. */
  datatype Shared = Shared(saved: map<nat, Window>, refs: map<nat, nat>, live: seq<Window>)

  /** The window `own` is chunk `id`'s, and no other saved buffer's. */
  ghost predicate HeldIn(x: Shared, id: nat, own: Option<Window>) {
    && (own.Some? ==> own.value in x.live && (id !in x.saved ==> own.value !in x.saved.Values))
    && (id in x.saved ==> own == Some(x.saved[id]))
  }

  ghost predicate SameBut<V(!new)>(x: map<nat, V>, y: map<nat, V>, id: nat) {
    forall k {:trigger k in x} {:trigger k in y} :: k != id ==> (k in x <==> k in y) && (k in x ==> x[k] == y[k])
  }

  /** A step of chunk `id`, whose window was `own`, touches the entries and the window of no other chunk. */
  ghost predicate Spares(x: Shared, y: Shared, id: nat, own: Option<Window>, own': Option<Window>) {
    && SameBut(x.saved, y.saved, id) && SameBut(x.refs, y.refs, id)
    && (forall w {:trigger w in x.live} :: w in x.live && own != Some(w) ==> w in y.live)
    && (own'.Some? ==> own' == own || own'.value !in x.live) && OnlyMoves(x.live, y.live, own, own')
  }

  /** The window that comes into use is the new one, and one that is given up goes out of use. */
  ghost predicate OnlyMoves(x: seq<Window>, y: seq<Window>, own: Option<Window>, own': Option<Window>) {
    && (forall w {:trigger w in y} :: w in y ==> own' == Some(w) || w in x)
    && (own.Some? && own' != own ==> own.value !in y)
  }

  /** So another chunk, whose window is another one, still holds it, and it stays another one. */
  lemma OtherStillHolds(x: Shared, y: Shared, i: nat, own: Option<Window>, own': Option<Window>, j: nat,
          its: Option<Window>)
    requires Spares(x, y, i, own, own') && HeldIn(y, i, own') && i != j && HeldIn(x, j, its)
    requires its.Some? ==> its != own
    ensures HeldIn(y, j, its) && (its.Some? ==> its != own')
    ensures (j in y.saved <==> j in x.saved) && (j in y.refs <==> j in x.refs)
    ensures j in y.refs ==> y.refs[j] == x.refs[j]
  {
    assert (j in x.saved <==> j in y.saved) && (j in x.refs <==> j in y.refs);
    if its.Some? && j !in x.saved {
      forall k | k in y.saved ensures y.saved[k] != its.value {
        if k != i { assert k in x.saved && x.saved[k] in x.saved.Values; }
      }
    }
  }

  class SharedChunk {
    const p: Params
    const table: BufferTable
    const id: nat
    var window: Option<Window>  // the buffer, once allocated
    var s: Sender
    var dests: seq<DestPc>
    var freer: nat
    var frees: nat
    var notFound: bool
    ghost var reached: Reached

    /** The counts are those of the tables. */
    function Now(): State
      reads this, table
    {
      State(s, Refs(), id in table.saved, dests, freer, frees, notFound)
    }

    function Refs(): Option<nat>
      reads this, table
    {
      if id in table.refs then Some(table.refs[id]) else None
    }

    ghost function Tables(): Shared
      reads table, table.shm
    {
      Shared(table.saved, table.refs, table.shm.live)
    }

    /** The window that is the chunk's: from its allocation until it is freed. */
    ghost function Own(): Option<Window>
      reads this
    {
      if Holds() then window else None
    }

    predicate Holds()
      reads this
    {
      s.malloc == Some(true) && frees == 0
    }

    ghost predicate Valid()
      reads this, table, table.shm, table.shm.occupancy
    {
      Sound() && table.Valid()
    }

    ghost predicate Sound()
      reads this, table, table.shm
    {
      SoundIn(Tables())
    }

    /** With these tables, that is. */
    ghost predicate SoundIn(x: Shared)
      reads this
    {
      && p.shmSize == table.shm.shmSize && p.slotSize == table.shm.slotSize
      && reached == RawReached(p, NowIn(x)) && (Holds() ==> window.Some?) && HeldIn(x, id, Own())
    }

    ghost function NowIn(x: Shared): State
      reads this
    {
      State(s, if id in x.refs then Some(x.refs[id]) else None, id in x.saved, dests, freer, frees, notFound)
    }

    /** What another chunk's step leaves of this one. */
    lemma Spared(x: Shared, y: Shared, i: nat, own: Option<Window>, own': Option<Window>)
      requires SoundIn(x) && Spares(x, y, i, own, own') && HeldIn(y, i, own') && i != id
      requires (Own().Some? ==> Own() != own)
      ensures SoundIn(y) && NowIn(y) == NowIn(x) && (Own().Some? ==> Own() != own')
    {
      OtherStillHolds(x, y, i, own, own', id, Own());
    }

    constructor (p: Params, table: BufferTable, id: nat, n: nat)
      requires n > 0 && table.Valid() && id !in table.saved
      requires p.shmSize == table.shm.shmSize && p.slotSize == table.shm.slotSize
      ensures Valid() && this.p == p && this.table == table && this.id == id && Now() == Init(p, n)
    {
      this.p, this.table, this.id := p, table, id;
      window, s, dests, freer, frees, notFound := None, InitSender(p), seq(n, _ => Pending), 0, 0, false;
      new;
      InitInv(p, n);
      reached := RawReached(p, Now());
    }

    /** The first call's _allocate; false when there is no room, and then the call waits. */
    method Reserve(r: nat, junk: seq<Elem>) returns (ok: bool)
      requires Valid() && Can(p, Now(), Copy(Allocate(r, junk)))
      modifies this`window, this`s, this`reached, table.shm`live, table.shm.occupancy
      ensures Now() == if ok then Next(p, old(Now()), Copy(Allocate(r, junk))) else old(Now())
      ensures ok <==> SomeFree(old(table.shm.occupancy[..]), |p.tensor| / p.slotSize)
      ensures Spares(old(Tables()), Tables(), id, old(Own()), Own())
      ensures Valid()
    {
      NotAllocated(reached, r);
      ok := TakeRoom();
      if ok {
        reached := Advance(reached, Copy(Allocate(r, junk)));
        s := SenderStep(p, s, Allocate(r, junk));
      }
    }

    method TakeRoom() returns (ok: bool)
      requires table.Valid() && id !in table.saved && !table.shm.Refuses(|p.tensor|)
      modifies this`window, table.shm`live, table.shm.occupancy
      ensures table.Valid() && (ok <==> SomeFree(old(table.shm.occupancy[..]), |p.tensor| / table.shm.slotSize))
      ensures ok ==> window.Some? && HeldIn(Tables(), id, window) && Spares(old(Tables()), Tables(), id, None, window)
      ensures !ok ==> window == old(window) && Tables() == old(Tables())
    {
      var a := table.Allocate(|p.tensor|);
      ok := a.Allocated?;
      if ok {
        window := Some(a.w);
        assert table.shm.live[|old(table.shm.live)|] == a.w;
      }
    }

    /** The first call's _allocate, when the slab refuses the size. */
    method Raise(r: nat)
      requires Valid() && Can(p, Now(), Copy(Refuse(r)))
      modifies this`s, this`reached, table.shm`live, table.shm.occupancy
      ensures Valid() && Now() == Next(p, old(Now()), Copy(Refuse(r)))
      ensures Tables() == old(Tables()) && Own() == old(Own())
    {
      var a := table.Allocate(|p.tensor|);
      reached := Advance(reached, Copy(Refuse(r)));
      s := SenderStep(p, s, Refuse(r));
    }

    /** Every other step of a call; the first one saves the buffer with its count before anybody is told. */
    method CopyStep(a: SendAction)
      requires Valid() && Can(p, Now(), Copy(a)) && !a.Allocate? && !a.Refuse?
      modifies this`s, this`reached, table
      ensures Valid() && Now() == Next(p, old(Now()), Copy(a))
      ensures Spares(old(Tables()), Tables(), id, old(Own()), Own())
    {
      Unallocated(reached, a);
      if a.CopyDone? && a.r == s.first {
        NotSavedBefore(reached, a.r);
        Save();
      }
      reached := Advance(reached, Copy(a));
      s := SenderStep(p, s, a);
    }

    method Save()
      requires table.Valid() && window.Some? && HeldIn(Tables(), id, window) && id !in table.saved && |dests| > 0
      modifies table
      ensures table.Valid() && id in table.saved && Refs() == Some(|dests|)
      ensures HeldIn(Tables(), id, window) && Spares(old(Tables()), Tables(), id, window, window)
    {
      table.Register(id, window.value, |dests|);
    }

    method Told(i: nat)
      requires Valid() && Can(p, Now(), Tell(i))
      modifies this`dests, this`reached
      ensures Valid() && Now() == Next(p, old(Now()), Tell(i)) && Own() == old(Own())
    {
      reached := Advance(reached, Tell(i));
      dests := dests[i := DestPc.Told];
    }

    method Unlinks(i: nat)
      requires Valid() && Can(p, Now(), Unlink(i))
      modifies this`dests, this`freer, this`notFound, this`reached, table`refs
      ensures Valid() && Now() == Next(p, old(Now()), Unlink(i))
      ensures Own() == old(Own()) && SameBut(old(table.refs), table.refs, id)
    {
      SavedIfCounted();
      UnlinkIs(p, Now(), i);
      GiveUp(i);
      Reach(Unlink(i));
    }

    /** The fields have taken a step from the state that was reached. */
    ghost method Reach(a: Action)
      requires reached.p == p && Can(p, reached.st, a) && Now() == Next(p, reached.st, a)
      modifies this`reached
      ensures reached == RawReached(p, Now())
    {
      reached := Advance(reached, a);
    }

    lemma SavedIfCounted()
      requires table.Valid()
      ensures Refs().Some? ==> id in table.saved && Refs().value > 0
    {
    }

    /** unlink up to the point where it would free the buffer. */
    method GiveUp(i: nat)
      requires table.Valid() && i < |dests| && HeldIn(Tables(), id, Own())
      modifies this`dests, this`freer, this`notFound, table`refs
      ensures table.Valid() && Now() == Noted(old(Now()), i, Answer(old(Now())))
      ensures SameBut(old(table.refs), table.refs, id) && Own() == old(Own()) && HeldIn(Tables(), id, Own())
    {
      var u := table.Unlink(id);
      match u {
        case NotFound => notFound := true;
        case StillUsed(_) => dests := dests[i := Unlinked];
        case LastUse(_) => dests, freer := dests[i := LastOut], i;
      }
    }

    /** The end of the last unlink: the chunk's slots are free, and nobody else's are touched. */
    method Frees(i: nat)
      requires Valid() && Can(p, Now(), Free(i))
      modifies this`dests, this`frees, this`reached, table`saved, table.shm`live, table.shm.occupancy
      ensures Valid() && Now() == Next(p, old(Now()), Free(i))
      ensures window.Some? && IsFree(table.shm.occupancy[..], window.value)
      ensures Spares(old(Tables()), Tables(), id, old(Own()), Own())
    {
      LastIsSaved(reached, i);
      ghost var before := table.shm.live;
      reached := Advance(reached, Free(i));
      table.FreeSaved(id);
      OthersLive(before, table.shm.live, window.value);
      FreeIsDead(table.shm.occupancy[..], table.shm.live, window.value);
      frees, dests := frees + 1, dests[i := Unlinked];
    }

    /** What can stop an enabled step: the first call waits while there is no room. */
    ghost predicate Blocked(a: Action)
      reads this, table, table.shm, table.shm.occupancy
    {
      a.Copy? && a.a.Allocate? && !SomeFree(table.shm.occupancy[..], |p.tensor| / p.slotSize)
    }

    /** One step of the schedule, which takes effect exactly if it is enabled and there is room. */
    method Step(a: Action) returns (ok: bool)
      requires Valid()
      modifies this, table, table.shm`live, table.shm.occupancy
      ensures Valid() && (ok <==> Can(p, old(Now()), a) && !old(Blocked(a)))
      ensures Now() == if ok then Next(p, old(Now()), a) else old(Now())
      ensures Spares(old(Tables()), Tables(), id, old(Own()), Own())
    {
      ok := Can(p, Now(), a);
      if !ok {
        return;
      }
      match a {
        case Copy(b) => ok := CallStep(b);
        case Tell(i) => Told(i);
        case Unlink(i) => Unlinks(i);
        case Free(i) => Frees(i);
      }
    }

    method CallStep(b: SendAction) returns (ok: bool)
      requires Valid() && Can(p, Now(), Copy(b))
      modifies this, table, table.shm`live, table.shm.occupancy
      ensures Valid() && ok == !old(Blocked(Copy(b)))
      ensures Now() == if ok then Next(p, old(Now()), Copy(b)) else old(Now())
      ensures Spares(old(Tables()), Tables(), id, old(Own()), Own())
    {
      ok := true;
      if b.Allocate? {
        ok := Reserve(b.r, b.junk);
      } else if b.Refuse? {
        Raise(b.r);
      } else {
        CopyStep(b);
      }
    }

    /**
     Any schedule; `ran` is the part of it that took effect. Unless an unlink raises, each of its steps brings
     the chunk closer to its end.
    */
    method Execute(schedule: seq<Action>) returns (ghost ran: seq<Action>)
      requires Valid()
      modifies this, table, table.shm`live, table.shm.occupancy
      ensures Valid() && Now() == Run(p, old(Now()), ran) && Subsequence(ran, schedule)
      ensures !notFound ==> |ran| + Work(Now()) <= Work(old(Now()))
    {
      ran := [];
      for k := 0 to |schedule|
        invariant Valid() && Now() == Run(p, old(Now()), ran) && Subsequence(ran, schedule[..k])
        invariant !notFound ==> |ran| + Work(Now()) <= Work(old(Now()))
      {
        var a := schedule[k];
        assert schedule[..k + 1] == schedule[..k] + [a];
        SubsequenceSnoc(ran, schedule[..k], a);
        RunOne(p, Now(), a);
        RunAppend(p, old(Now()), ran, [a]);
        Advances(reached, a);
        var ok := Step(a);
        ran := if ok then ran + [a] else ran;
      }
      assert schedule[..|schedule|] == schedule;
    }

    /**
     Where nothing can happen any more, the buffer is freed and every destination has unlinked if the first
     call's shard has data; or that call waits for room. See EndPc for what else can be.
    */
    lemma EndsComplete()
      requires Valid() && forall a :: Can(p, Now(), a) ==> Raises(p, Now(), a) || Blocked(a)
      ensures || (WaitsForRoom() && !SomeFree(table.shm.occupancy[..], |p.tensor| / p.slotSize))
              || Complete()
    {
      if a :| Can(p, Now(), a) && Blocked(a) {
        AllocatingIsFirst(reached, a.a.r);
      } else {
        StateAtRest(p, Now());
      }
    }

    predicate Complete()
      reads this
    {
      && (!Refused(p) ==> s.first < p.g) && (frees == 1 <==> !Refused(p) && HasData(p, s.first))
      && forall i :: 0 <= i < |dests| ==> dests[i] == EndPc(p, s.first)
    }

    /** The first call is in _allocate. */
    predicate WaitsForRoom()
      reads this
    {
      s.first < |s.calls| && s.calls[s.first] == Allocating && !Refused(p)
    }

    /** The slots are occupied from the allocation until they are freed, and nobody reads them after that. */
    lemma SlotsAreHeld()
      requires Valid()
      ensures Holds() ==> window.Some? && IsTaken(table.shm.occupancy[..], window.value)
      ensures forall i :: 0 <= i < |dests| && dests[i] == DestPc.Told ==> Holds() && s.buffer == p.tensor
    {
      FreedIffUnlinked(p, Now());
      forall i | 0 <= i < |dests| && dests[i] == DestPc.Told ensures Holds() && s.buffer == p.tensor {
        ToldIsRegisteredIff(p, Now(), i);
        ToldIsWhole(p, Now(), i);
      }
    }
  }

  lemma FreeIsDead(occ: seq<int>, live: seq<Window>, w: Window)
    requires LiveOk(occ, live) && IsFree(occ, w)
    ensures w !in live
  {
    forall k | 0 <= k < |live| ensures live[k] != w {
      assert w.count > 0 ==> occ[w.first] == 0;
      assert IsTaken(occ, live[k]) && occ[live[k].first] == 1;
    }
  }

  lemma OthersLive(before: seq<Window>, after: seq<Window>, own: Window)
    requires multiset(after) == multiset(before) - multiset{own}
    ensures forall w {:trigger w in before} :: w in before && w != own ==> w in after
    ensures forall w {:trigger w in after} :: w in after ==> w in before
  {
    forall w | w in after ensures w in before { assert w in multiset(after); }
    forall w | w in before && w != own ensures w in after {
      assert w in multiset(before) - multiset{own};
      assert w in multiset(after);
    }
  }

  lemma Advances(x: Reached, a: Action)
    ensures Can(x.p, x.st, a) ==>
              var t := Next(x.p, x.st, a); (x.st.notFound ==> t.notFound) && (t.notFound || Work(t) < Work(x.st))
  {
    if Can(x.p, x.st, a) && !Raises(x.p, x.st, a) { NextAdvances(x.p, x.st, a); }
  }

  lemma AllocatingIsFirst(x: Reached, r: nat)
    requires r < |x.st.s.calls| && x.st.s.calls[r] == Allocating
    ensures x.st.s.first == r
  {
    assert CallOk(x.p, x.st.s, r);
  }

  lemma NotAllocated(x: Reached, r: nat)
    requires r < |x.st.s.calls| && x.st.s.calls[r] == Allocating
    ensures !x.st.saved && x.st.frees == 0 && x.st.s.malloc != Some(true)
  {
    assert CallOk(x.p, x.st.s, r);
  }

  /** Only an allocation makes the buffer available. */
  lemma Unallocated(x: Reached, a: SendAction)
    requires Can(x.p, x.st, Copy(a)) && !a.Allocate? && !a.Refuse?
    ensures SenderStep(x.p, x.st.s, a).malloc == Some(true) ==> x.st.s.malloc == Some(true)
  {
  }

  lemma NotSavedBefore(x: Reached, r: nat)
    requires r < x.p.g && r == x.st.s.first && r < |x.st.s.calls| && x.st.s.calls[r] == Copying
    ensures !x.st.saved && x.st.refs == None && x.st.frees == 0 && x.st.s.malloc == Some(true) && |x.st.dests| > 0
  {
    assert CallOk(x.p, x.st.s, r);
  }

  lemma LastIsSaved(x: Reached, i: nat)
    requires i < |x.st.dests| && x.st.dests[i] == LastOut
    ensures x.st.saved && x.st.refs == None && x.st.frees == 0 && x.st.s.malloc == Some(true)
  {
    assert Registered(x.p, x.st.s);
    FreedIffUnlinked(x.p, x.st);
    ToldIsRegisteredIff(x.p, x.st, i);
  }

  lemma RunOne(p: Params, st: State, a: Action)
    ensures Run(p, st, [a]) == (if Can(p, st, a) then Next(p, st, a) else st) && Run(p, st, []) == st
  {
    assert [a][1..] == [];
  }
}
