/**
 All chunks that a sender shares on its node, on one slab and one pair of tables: any interleaving of their
 handlers is a run of each chunk's state machine, and no two of them ever share a slot.
*/
module IntraNodeSlab {
  import opened Options
  import opened ShmManager
  import opened ChunkTransfer
  import opened IntraNode
  import opened IntraNodeProgress
  import opened SavedBuffers
  import opened IntraNodeRun
  import opened Sequences

  /** A step of one of the chunks. */
  datatype Turn = Turn(chunk: nat, a: Action)

  /** The steps of chunk `i`. */
  function Of(turns: seq<Turn>, i: nat): seq<Action> {
    if |turns| == 0 then []
    else
      var n := |turns| - 1;
      if turns[n].chunk == i then Of(turns[..n], i) + [turns[n].a] else Of(turns[..n], i)
  }

  lemma OfSnoc(turns: seq<Turn>, t: Turn, i: nat)
    ensures Of(turns + [t], i) == if t.chunk == i then Of(turns, i) + [t.a] else Of(turns, i)
  {
    assert (turns + [t])[..|turns|] == turns;
  }

  class SharedSlab {
    const table: BufferTable
    const chunks: seq<SharedChunk>    // numbered by their ids
    ghost var holder: map<Window, nat>  // whose a window is
    ghost var states: seq<State>        // what the chunks have got to
    ghost var owned: seq<Option<Window>>  // their windows
    ghost var tables: Shared

    ghost predicate Valid()
      reads this, chunks, table, table.shm, table.shm.occupancy
    {
      && table.Valid() && |states| == |owned| == |chunks| && tables == Shared(table.saved, table.refs, table.shm.live)
      && Numbered()
      && forall i {:trigger ChunkIn(i, tables, holder, states, owned)} :: 0 <= i < |chunks| ==>
          ChunkIn(i, tables, holder, states, owned)
    }

    ghost predicate Numbered() {
      forall i {:trigger chunks[i]} :: 0 <= i < |chunks| ==> chunks[i].id == i && chunks[i].table == table
    }

    /** Chunk `i` is sound with tables `x`; the holder of its window and its state are recorded. */
    ghost predicate ChunkIn(i: nat, x: Shared, holder: map<Window, nat>, states: seq<State>,
            owned: seq<Option<Window>>)
      requires i < |chunks|
      reads chunks[i]
    {
      var c := chunks[i];
      && c.SoundIn(x) && i < |states| == |owned| && c.NowIn(x) == states[i] && c.Own() == owned[i]
      && (c.Own().Some? ==> c.Own().value in holder && holder[c.Own().value] == i)
    }

    ghost function Held(holder: map<Window, nat>, i: nat, own: Option<Window>): map<Window, nat> {
      if own.Some? then holder[own.value := i] else holder
    }

    /** What a step of chunk `i` leaves of chunk `j`. */
    lemma StaysIn(j: nat, i: nat, x: Shared, y: Shared, own: Option<Window>, own': Option<Window>,
                  holder: map<Window, nat>, states: seq<State>, owned: seq<Option<Window>>, st: State)
      requires j < |chunks| && chunks[j].id == j && i < |states| && i != j && ChunkIn(j, x, holder, states, owned)
      requires Spares(x, y, i, own, own') && HeldIn(y, i, own')
      requires own.Some? ==> own.value in holder && holder[own.value] == i
      ensures ChunkIn(j, y, Held(holder, i, own'), states[i := st], owned[i := own'])
    {
      chunks[j].Spared(x, y, i, own, own');
    }

    constructor (table: BufferTable, chunks: seq<SharedChunk>)
      requires table.Valid()
      requires forall i {:trigger chunks[i]} :: 0 <= i < |chunks| ==>
                 chunks[i].table == table && chunks[i].id == i && chunks[i].Sound() && chunks[i].Own() == None
      ensures Valid() && this.table == table && this.chunks == chunks && (table.shm.live == [] ==> Sole())
    {
      this.table, this.chunks, holder := table, chunks, map[];
      tables := Shared(table.saved, table.refs, table.shm.live);
      states := seq(|chunks|, i requires 0 <= i < |chunks| reads chunks, table => chunks[i].Now());
      owned := seq(|chunks|, _ => None);
    }

    /** Nobody else uses the slab: every window in use is one of the chunks'. */
    ghost predicate Sole()
      reads this`tables, this`holder, this`owned
    {
      AllHeld(tables.live, holder, owned)
    }

    /** One step of one chunk, which leaves the state of every other chunk as it is. */
    method Step(i: nat, a: Action) returns (ok: bool)
      requires Valid() && i < |chunks|
      modifies this`holder, this`states, this`owned, this`tables, chunks[i], table, table.shm`live, table.shm.occupancy
      ensures Valid() && (ok <==> Can(chunks[i].p, old(states[i]), a) && !old(chunks[i].Blocked(a)))
      ensures states == if ok then old(states)[i := Next(chunks[i].p, old(states[i]), a)] else old(states)
      ensures old(Sole()) ==> Sole()
    {
      ghost var x, own, h, sts, owns := tables, chunks[i].Own(), holder, states, owned;
      assert ChunkIn(i, x, h, sts, owns);
      ok := Move(i, a);
      forall j | 0 <= j < |chunks| && j != i ensures ChunkIn(j, x, h, sts, owns) {
        assert chunks[j].id == j && old(ChunkIn(j, x, h, sts, owns));
      }
      Record(i, x, own);
    }

    /** Chunk `i` has moved: its window and its state are recorded. */
    ghost method Record(i: nat, x: Shared, own: Option<Window>)
      requires i < |chunks| == |states| == |owned| && Numbered() && chunks[i].SoundIn(tables) && owned[i] == own
      requires table.Valid() && tables == Shared(table.saved, table.refs, table.shm.live)
      requires Spares(x, tables, i, own, chunks[i].Own())
      requires own.Some? ==> own.value in holder && holder[own.value] == i
      requires forall j {:trigger ChunkIn(j, x, holder, states, owned)} :: 0 <= j < |chunks| && j != i ==>
                ChunkIn(j, x, holder, states, owned)
      modifies this`holder, this`states, this`owned
      ensures Valid() && states == old(states)[i := chunks[i].NowIn(tables)]
      ensures AllHeld(x.live, old(holder), old(owned)) ==> Sole()
    {
      AllStay(i, x, tables, own, holder, states, owned);
      AllStillHeld(x, tables, i, own, chunks[i].Own(), holder, owned);
      holder, owned := Held(holder, i, chunks[i].Own()), owned[i := chunks[i].Own()];
      states := states[i := chunks[i].NowIn(tables)];
    }

    lemma AllStay(i: nat, x: Shared, y: Shared, own: Option<Window>, holder: map<Window, nat>, states: seq<State>,
                  owned: seq<Option<Window>>)
      requires i < |chunks| == |states| == |owned| && Numbered() && chunks[i].SoundIn(y)
      requires Spares(x, y, i, own, chunks[i].Own()) && (own.Some? ==> own.value in holder && holder[own.value] == i)
      requires forall j {:trigger ChunkIn(j, x, holder, states, owned)} :: 0 <= j < |chunks| && j != i ==>
                ChunkIn(j, x, holder, states, owned)
      ensures var h, sts, owns := Held(holder, i, chunks[i].Own()), states[i := chunks[i].NowIn(y)],
                                  owned[i := chunks[i].Own()];
              forall j {:trigger ChunkIn(j, y, h, sts, owns)} :: 0 <= j < |chunks| ==> ChunkIn(j, y, h, sts, owns)
    {
      var h, sts := Held(holder, i, chunks[i].Own()), states[i := chunks[i].NowIn(y)];
      var owns := owned[i := chunks[i].Own()];
      forall j | 0 <= j < |chunks| ensures ChunkIn(j, y, h, sts, owns) {
        if j != i {
          assert chunks[j].id == j && ChunkIn(j, x, holder, states, owned);
          StaysIn(j, i, x, y, own, chunks[i].Own(), holder, states, owned, chunks[i].NowIn(y));
        }
      }
    }

    method Move(i: nat, a: Action) returns (ok: bool)
      requires table.Valid() && tables == Shared(table.saved, table.refs, table.shm.live)
      requires i < |chunks| && chunks[i].table == table && chunks[i].id == i && chunks[i].SoundIn(tables)
      modifies this`tables, chunks[i], table, table.shm`live, table.shm.occupancy
      ensures table.Valid() && tables == Shared(table.saved, table.refs, table.shm.live)
      ensures ok <==> Can(chunks[i].p, old(chunks[i].NowIn(tables)), a) && !old(chunks[i].Blocked(a))
      ensures chunks[i].SoundIn(tables) && Spares(old(tables), tables, i, old(chunks[i].Own()), chunks[i].Own())
      ensures var was := old(chunks[i].NowIn(tables));
              chunks[i].NowIn(tables) == if ok then Next(chunks[i].p, was, a) else was
    {
      ok := chunks[i].Step(a);
      tables := chunks[i].Tables();
    }

    /** Each chunk has run its own part of `ran`, and every step of it towards its end. */
    ghost predicate RanFrom(start: seq<State>, ran: seq<Turn>)
      requires |start| == |chunks|
      reads this`states
    {
      |states| == |chunks| && forall i {:trigger chunks[i]} :: 0 <= i < |chunks| ==>
        RanTo(chunks[i].p, start[i], Of(ran, i), states[i])
    }

    /** Any schedule; `ran` is the part of it that took effect, and each chunk has run its own part of that. */
    method Execute(schedule: seq<Turn>) returns (ghost ran: seq<Turn>)
      requires Valid()
      modifies this`holder, this`states, this`owned, this`tables, chunks, table, table.shm`live, table.shm.occupancy
      ensures Valid() && Subsequence(ran, schedule) && (old(Sole()) ==> Sole())
      ensures RanFrom(old(states), ran)
    {
      ran := [];
      for k := 0 to |schedule|
        invariant Valid() && Subsequence(ran, schedule[..k]) && (old(Sole()) ==> Sole())
        invariant RanFrom(old(states), ran)
      {
        assert schedule[..k + 1] == schedule[..k] + [schedule[k]];
        SubsequenceSnoc(ran, schedule[..k], schedule[k]);
        if schedule[k].chunk < |chunks| {
          var ok := Take(schedule[k], old(states), ran);
          ran := if ok then ran + [schedule[k]] else ran;
        }
      }
      assert schedule[..|schedule|] == schedule;
    }

    method Take(t: Turn, ghost start: seq<State>, ghost ran: seq<Turn>) returns (ok: bool)
      requires Valid() && t.chunk < |chunks| == |start| && RanFrom(start, ran)
      modifies this`holder, this`states, this`owned, this`tables, chunks[t.chunk], table, table.shm`live,
               table.shm.occupancy
      ensures Valid() && (old(Sole()) ==> Sole()) && RanFrom(start, if ok then ran + [t] else ran)
    {
      assert ChunkIn(t.chunk, tables, holder, states, owned);
      ghost var x, sts := chunks[t.chunk].reached, states;
      ok := Step(t.chunk, t.a);
      if ok {
        RanOn(x, start[t.chunk], Of(ran, t.chunk), t.a);
        forall i | 0 <= i < |chunks| ensures RanTo(chunks[i].p, start[i], Of(ran + [t], i), states[i]) {
          OfSnoc(ran, t, i);
        }
      }
    }

    /** Nothing can happen any more: whatever is enabled would raise or waits for room. */
    ghost predicate AtRest()
      requires |states| == |chunks|
      reads this, chunks, set c | c in chunks :: c.table, set c | c in chunks :: c.table.shm,
            set c | c in chunks :: c.table.shm.occupancy
    {
      forall i, a {:trigger Can(chunks[i].p, states[i], a)} :: 0 <= i < |chunks| && Can(chunks[i].p, states[i], a) ==>
        Raises(chunks[i].p, states[i], a) || chunks[i].Blocked(a)
    }

    /** Chunk `i` has been refused, or all of its destinations have unlinked and its buffer is freed. */
    predicate Ended(i: nat)
      requires i < |chunks|
      reads chunks[i]
    {
      var c := chunks[i];
      Refused(c.p) || (c.frees == 1 && forall d :: d in c.dests ==> d == DestPc.Unlinked)
    }

    /**
     On a slab that nobody else uses, with an element for every rank of each chunk, no call waits for room for
     ever: at rest every chunk that the slab accepts has reached all of its destinations and is freed.
    */
    lemma AllEndComplete()
      requires Valid() && Sole() && AtRest()
      requires forall i {:trigger chunks[i]} :: 0 <= i < |chunks| ==> |chunks[i].p.tensor| >= chunks[i].p.g
      ensures forall i {:trigger chunks[i]} :: 0 <= i < |chunks| ==>
                !chunks[i].WaitsForRoom() && Ended(i)
    {
      forall i | 0 <= i < |chunks| ensures owned[i] == None { GivesUp(i); }
      assert table.shm.live == [] by { NobodyHolds(tables.live, holder, owned); }
      forall i | 0 <= i < |chunks|
        ensures !chunks[i].WaitsForRoom() && Ended(i)
      {
        GivesUp(i);
        if chunks[i].WaitsForRoom() { RoomInEmpty(table.shm, |chunks[i].p.tensor|); }
      }
    }

    /** At rest a chunk has no window: it waits for one, has freed it, or is refused it. */
    lemma GivesUp(i: nat)
      requires Valid() && AtRest() && i < |chunks| && |chunks[i].p.tensor| >= chunks[i].p.g
      ensures owned[i] == None && chunks[i].p.slotSize == table.shm.slotSize && chunks[i].p.shmSize == table.shm.shmSize
      ensures || (chunks[i].WaitsForRoom()
                  && !SomeFree(table.shm.occupancy[..], |chunks[i].p.tensor| / chunks[i].p.slotSize))
              || (!chunks[i].WaitsForRoom() && Ended(i))
    {
      assert ChunkIn(i, tables, holder, states, owned);
      var c := chunks[i];
      assert c.Now() == states[i] && c.table == table;
      forall a | Can(c.p, c.Now(), a) ensures Raises(c.p, c.Now(), a) || c.Blocked(a) {
        assert Can(chunks[i].p, states[i], a);
      }
      EndsUnheld(c.reached);
      c.EndsComplete();
    }

    /** Two chunks that have been allocated and not freed occupy different slots. */
    lemma SlotsApart(i: nat, j: nat)
      requires Valid() && i < |chunks| && j < |chunks| && i != j && chunks[i].Holds() && chunks[j].Holds()
      ensures chunks[i].window.Some? && chunks[j].window.Some?
      ensures var v, w := chunks[i].window.value, chunks[j].window.value;
              IsTaken(table.shm.occupancy[..], v) && IsTaken(table.shm.occupancy[..], w) && v.Apart(w)
    {
      assert ChunkIn(i, tables, holder, states, owned) && ChunkIn(j, tables, holder, states, owned);
      var v, w := chunks[i].window.value, chunks[j].window.value;
      LiveApart(table.shm.occupancy[..], table.shm.live, v, w);
    }
  }

  /** Every window in use is somebody's. */
  ghost predicate AllHeld(live: seq<Window>, holder: map<Window, nat>, owned: seq<Option<Window>>) {
    forall w {:trigger w in live} :: w in live ==>
      w in holder && holder[w] < |owned| && owned[holder[w]] == Some(w)
  }

  lemma AllStillHeld(x: Shared, y: Shared, i: nat, own: Option<Window>, own': Option<Window>,
          holder: map<Window, nat>, owned: seq<Option<Window>>)
    requires Spares(x, y, i, own, own') && i < |owned| && owned[i] == own
    ensures AllHeld(x.live, holder, owned) ==>
              AllHeld(y.live, if own'.Some? then holder[own'.value := i] else holder, owned[i := own'])
  {
  }

  lemma NobodyHolds(live: seq<Window>, holder: map<Window, nat>, owned: seq<Option<Window>>)
    requires AllHeld(live, holder, owned) && forall i :: 0 <= i < |owned| ==> owned[i] == None
    ensures live == []
  {
    if live != [] { var w := AnyOf(live); }
  }

  lemma AnyOf(live: seq<Window>) returns (w: Window)
    requires live != []
    ensures w in live
  {
    w := live[0];
  }

  /** An empty slab has room for every size that it does not refuse. */
  lemma RoomInEmpty(shm: SharedMemoryManager, size: nat)
    requires shm.Valid() && shm.live == [] && !shm.Refuses(size)
    ensures SomeFree(shm.occupancy[..], size / shm.slotSize)
  {
    AcceptedIff(shm.shmSize, shm.slotSize, size);
    var w := Window(0, size / shm.slotSize);
    assert IsFree(shm.occupancy[..], w);
  }

  /** `st` is where `run` leads from `start`, and no step of it was in vain unless an unlink raised. */
  ghost predicate RanTo(p: Params, start: State, run: seq<Action>, st: State) {
    st == Run(p, start, run) && (!st.notFound ==> |run| + Work(st) <= Work(start))
  }

  lemma RanOn(x: Reached, start: State, run: seq<Action>, a: Action)
    requires Can(x.p, x.st, a) && RanTo(x.p, start, run, x.st)
    ensures RanTo(x.p, start, run + [a], Next(x.p, x.st, a))
  {
    RunOne(x.p, x.st, a);
    RunAppend(x.p, start, run, [a]);
    Advances(x, a);
  }

  lemma EndsUnheld(x: Reached)
    requires |x.p.tensor| >= x.p.g
    ensures x.st.s.first < x.p.g ==> HasData(x.p, x.st.s.first)
    ensures x.st.s.malloc == Some(true) ==> !Refused(x.p) && x.st.s.first < x.p.g
    ensures x.st.s.first < |x.st.s.calls| && x.st.s.calls[x.st.s.first] == Allocating ==>
              x.st.s.malloc != Some(true) && x.st.frees == 0
  {
    if x.st.s.first < x.p.g {
      ShardBounds(x.p, x.st.s.first);
      assert CallOk(x.p, x.st.s, x.st.s.first);
    }
  }

  lemma LiveApart(occ: seq<int>, live: seq<Window>, v: Window, w: Window)
    requires LiveOk(occ, live) && v in live && w in live && v != w
    ensures IsTaken(occ, v) && IsTaken(occ, w) && v.Apart(w)
  {
    var a :| 0 <= a < |live| && live[a] == v;
    var b :| 0 <= b < |live| && live[b] == w;
    assert IsTaken(occ, live[a]) && IsTaken(occ, live[b]);
    if a < b { assert live[a].Apart(live[b]); } else { assert live[b].Apart(live[a]); }
  }
}
