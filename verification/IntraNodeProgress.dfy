/**
 Sharing a chunk on its node comes to an end, and where it ends every destination has been told of the
 buffer and has given it back, unless the size or the unlinks are refused.
*/
module IntraNodeProgress {
  import opened Options
  import opened ChunkTransfer
  import opened IntraNode
  import T = ChunkTransferTheorems

  /** The steps that a destination still has to take. */
  function DestWork(d: DestPc): nat {
    match d
    case Pending => 3
    case Told => 2
    case LastOut => 1
    case Unlinked => 0
  }

  function DestsWork(dests: seq<DestPc>): seq<nat> {
    seq(|dests|, i requires 0 <= i < |dests| => DestWork(dests[i]))
  }

  function Work(st: State): nat { T.Sum(T.CallsWork(st.s.calls)) + T.Sum(DestsWork(st.dests)) }

  /** An unlink that raises, and changes nothing but that. */
  predicate Raises(p: Params, st: State, a: Action)
    requires Can(p, st, a)
  {
    a.Unlink? && Next(p, st, a) == st.(notFound := true)
  }

  /** Every step is one towards the end, except an unlink that raises. */
  lemma NextAdvances(p: Params, st: State, a: Action)
    requires Inv(p, st) && Can(p, st, a) && !Raises(p, st, a)
    ensures Work(Next(p, st, a)) < Work(st)
  {
    var t := Next(p, st, a);
    match a
    case Copy(b) => T.SenderAdvances(p, st.s, b);
    case Tell(i) => DestsDrop(st.dests, i, t.dests[i]);
    case Unlink(i) => DestsDrop(st.dests, i, t.dests[i]);
    case Free(i) => DestsDrop(st.dests, i, t.dests[i]);
  }

  lemma DestsDrop(dests: seq<DestPc>, i: nat, d: DestPc)
    requires i < |dests| && DestWork(d) < DestWork(dests[i])
    ensures T.Sum(DestsWork(dests[i := d])) < T.Sum(DestsWork(dests))
  {
    T.SumDrops(DestsWork(dests), DestsWork(dests[i := d]), i);
  }

  /** Every step of the schedule is enabled, and no unlink raises. */
  predicate AllAdvance(p: Params, st: State, schedule: seq<Action>)
    decreases |schedule|
  {
    |schedule| > 0 ==>
      && Can(p, st, schedule[0]) && !Raises(p, st, schedule[0])
      && AllAdvance(p, Next(p, st, schedule[0]), schedule[1..])
  }

  lemma {:induction false} RunsEnd(p: Params, st: State, schedule: seq<Action>)
    requires Inv(p, st) && AllAdvance(p, st, schedule)
    ensures |schedule| + Work(Run(p, st, schedule)) <= Work(st)
    decreases |schedule|
  {
    if |schedule| > 0 {
      NextKeeps(p, st, schedule[0]);
      NextAdvances(p, st, schedule[0]);
      RunsEnd(p, Next(p, st, schedule[0]), schedule[1..]);
    }
  }

  /** Nothing can happen any more but unlinks that raise. */
  ghost predicate AtRest(p: Params, st: State) {
    forall a :: Can(p, st, a) ==> Raises(p, st, a)
  }

  lemma CallAtRest(p: Params, st: State, r: nat)
    requires Inv(p, st) && AtRest(p, st) && r < p.g
    ensures st.s.calls[r] in {Waiting, Sending, Returned, Failed}
    ensures (st.s.calls[r] == Waiting ==> st.s.malloc != Some(true)) && (st.s.calls[r] == Failed ==> Refused(p))
  {
    ShardBounds(p, r);
    assert CallOk(p, st.s, r);
    assert !Can(p, st, Copy(Call(r)));
    assert !Can(p, st, Copy(Allocate(r, p.tensor)));
    assert !Can(p, st, Copy(Refuse(r)));
    assert !Can(p, st, Copy(Resume(r)));
    assert !Can(p, st, Copy(CopyDone(r)));
  }

  /** At rest the whole tensor is in the buffer, if there is one. */
  lemma CopiedAtRest(p: Params, st: State)
    requires Inv(p, st) && AtRest(p, st) && !Refused(p)
    ensures st.s.malloc == Some(true) && st.s.doneEvent == Some(true) && st.s.calls[0] == Sending
  {
    CallAtRest(p, st, 0);
    assert CallOk(p, st.s, 0);
    if st.s.malloc == Some(false) { CallAtRest(p, st, st.s.first); }
    forall r | 0 <= r < p.g ensures st.s.avail[r] {
      CallAtRest(p, st, r);
      assert CallOk(p, st.s, r);
    }
    FirstHasData(p);
  }

  lemma DestAtRest(p: Params, st: State, i: nat)
    requires Inv(p, st) && AtRest(p, st) && !Refused(p) && i < |st.dests|
    ensures st.s.first < p.g && st.dests[i] == if HasData(p, st.s.first) then Unlinked else Told
  {
    CopiedAtRest(p, st);
    assert !Can(p, st, Tell(i));
    assert !Can(p, st, Free(i));
    ToldIsRegisteredIff(p, st, i);
    if st.dests[i] == Told {
      assert Raises(p, st, Unlink(i));
      UnlinkRefusedIff(p, st, i);
    }
  }

  /**
   Where a run ends, every destination has been told, has unlinked and the buffer is freed, if the first
   call's shard has data. If it has not, every destination has been told and stays at a refused unlink. If
   the slab refuses the size, no destination hears of the chunk.
  */
  lemma RestIsComplete(p: Params, n: nat, schedule: seq<Action>)
    requires n > 0 && AtRest(p, Run(p, Init(p, n), schedule))
    ensures var st := Run(p, Init(p, n), schedule);
            && |st.dests| == n && (!Refused(p) ==> st.s.first < p.g && st.s.buffer == p.tensor)
            && (st.frees == 1 <==> !Refused(p) && HasData(p, st.s.first))
            && forall i :: 0 <= i < n ==> st.dests[i] == EndPc(p, st.s.first)
  {
    InitInv(p, n);
    RunKeeps(p, Init(p, n), schedule);
    StateAtRest(p, Run(p, Init(p, n), schedule));
  }

  /** What a destination comes to. */
  function EndPc(p: Params, first: nat): DestPc {
    if Refused(p) then Pending else if first < p.g && HasData(p, first) then Unlinked else Told
  }

  lemma StateAtRest(p: Params, st: State)
    requires Inv(p, st) && AtRest(p, st)
    ensures !Refused(p) ==> st.s.first < p.g && st.s.buffer == p.tensor
    ensures st.frees == 1 <==> !Refused(p) && HasData(p, st.s.first)
    ensures forall i :: 0 <= i < |st.dests| ==> st.dests[i] == EndPc(p, st.s.first)
  {
    FreedIffUnlinked(p, st);
    if !Refused(p) {
      forall i | 0 <= i < |st.dests| ensures st.dests[i] == EndPc(p, st.s.first) { DestAtRest(p, st, i); }
      DestAtRest(p, st, 0);
      ToldIsWhole(p, st, 0);
    }
  }

  /** With an element for every rank and a size that the slab accepts, whichever call comes first. */
  lemma AllUnlinked(p: Params, n: nat, schedule: seq<Action>)
    requires n > 0 && |p.tensor| >= p.g && !Refused(p) && AtRest(p, Run(p, Init(p, n), schedule))
    ensures var st := Run(p, Init(p, n), schedule);
            st.frees == 1 && |st.dests| == n && forall i :: 0 <= i < n ==> st.dests[i] == Unlinked
  {
    RestIsComplete(p, n, schedule);
    ShardBounds(p, Run(p, Init(p, n), schedule).s.first);
  }
}
