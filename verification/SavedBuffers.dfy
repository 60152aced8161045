/** The reference-counted buffers of a sender, which `unlink` gives back to its slab. */
module SavedBuffers {
  import opened ShmManager

  datatype Unlinking =
    | NotFound               // the call is aborted
    | StillUsed(refs: nat)
    | LastUse(w: Window)     // goes on to _free

  class BufferTable {
    const shm: SharedMemoryManager
    var saved: map<nat, Window>  // saved_buffers
    var refs: map<nat, nat>      // ref_counts

    /** Every saved buffer still owns its slots, and no two of them share any. */
    ghost predicate Valid()
      reads this, shm, shm.occupancy
    {
      && shm.Valid() && refs.Keys <= saved.Keys && (forall k {:trigger refs[k]} :: k in refs ==> refs[k] > 0)
      && Owned(saved, shm.live)
    }

    constructor (shm: SharedMemoryManager)
      requires shm.Valid()
      ensures Valid() && this.shm == shm && saved == map[] && refs == map[]
    {
      this.shm := shm;
      saved, refs := map[], map[];
    }

    /** _allocate: room that is no saved buffer's. */
    method Allocate(size: int) returns (r: Allocation)
      requires Valid()
      modifies shm`live, shm.occupancy
      ensures Valid()
      ensures r == ValueError <==> shm.Refuses(size)
      ensures r == NoRoom <==> !shm.Refuses(size) && !SomeFree(old(shm.occupancy[..]), size / shm.slotSize)
      ensures r.Allocated? ==> r.w !in old(shm.live) && r.w !in saved.Values && IsTaken(shm.occupancy[..], r.w)
      ensures shm.live == if r.Allocated? then old(shm.live) + [r.w] else old(shm.live)
    {
      ghost var live, occ := shm.live, shm.occupancy[..];
      r := shm.Allocate(size);
      if r.Allocated? {
        NewIsNobodys(saved, live, occ, r.w);
      }
    }

    /** Before any of the `count` destinations is sent the buffer. */
    method Register(id: nat, w: Window, count: nat)
      requires Valid() && id !in saved && w in shm.live && w !in saved.Values && count > 0
      modifies this
      ensures Valid() && saved == old(saved)[id := w] && refs == old(refs)[id := count]
    {
      saved, refs := saved[id := w], refs[id := count];
    }

    /** unlink up to the point where it would free the buffer. */
    method Unlink(id: nat) returns (r: Unlinking)
      requires Valid()
      modifies this`refs
      ensures Valid()
      ensures r == NotFound <==> id !in old(refs)
      ensures r.StillUsed? ==> r.refs > 0 && refs == old(refs)[id := r.refs] && old(refs)[id] == r.refs + 1
      ensures r.LastUse? ==> old(refs)[id] == 1 && refs == old(refs) - {id} && id in saved && r.w == saved[id]
      ensures r == NotFound ==> refs == old(refs)
    {
      if id !in saved || id !in refs {
        return NotFound;
      }
      if refs[id] == 1 {
        refs := refs - {id};
        return LastUse(saved[id]);
      }
      r := StillUsed(refs[id] - 1);
      refs := refs[id := refs[id] - 1];
    }

    /** The rest of the last unlink. */
    method FreeSaved(id: nat)
      requires Valid() && id in saved && id !in refs
      modifies this`saved, shm`live, shm.occupancy
      ensures Valid() && saved == old(saved) - {id}
      ensures multiset(shm.live) == multiset(old(shm.live)) - multiset{old(saved)[id]}
      ensures IsFree(shm.occupancy[..], old(saved)[id])
      ensures forall k :: k in saved ==> IsTaken(shm.occupancy[..], saved[k])
    {
      assert Owned(saved, shm.live);
      ghost var before := shm.live;
      shm.Free(saved[id]);
      OthersOwned(saved, before, shm.live, id);
      saved := saved - {id};
      OwnedIsTaken(saved, shm.occupancy[..], shm.live);
    }
  }

  ghost predicate Owned(saved: map<nat, Window>, live: seq<Window>) {
    && (forall k :: k in saved ==> saved[k] in live)
    && (forall j, k :: j in saved && k in saved && j != k ==> saved[j] != saved[k])
  }

  /** A window that was free is none of the saved ones. */
  lemma NewIsNobodys(saved: map<nat, Window>, live: seq<Window>, occ: seq<int>, w: Window)
    requires Owned(saved, live) && AllTaken(occ, live) && IsFree(occ, w) && w.count > 0
    ensures Owned(saved, live + [w]) && w !in saved.Values && w !in live
  {
    forall j | 0 <= j < |live| ensures live[j] != w {
      assert IsTaken(occ, live[j]) && occ[w.first] == 0;
    }
  }

  lemma OthersOwned(saved: map<nat, Window>, before: seq<Window>, after: seq<Window>, id: nat)
    requires Owned(saved, before) && id in saved && multiset(after) == multiset(before) - multiset{saved[id]}
    ensures Owned(saved - {id}, after)
  {
    forall k | k in saved && k != id ensures saved[k] in after {
      assert saved[k] in multiset(before) - multiset{saved[id]};
      assert saved[k] in multiset(after);
    }
  }

  lemma OwnedIsTaken(saved: map<nat, Window>, occ: seq<int>, live: seq<Window>)
    requires Owned(saved, live) && AllTaken(occ, live)
    ensures forall k :: k in saved ==> IsTaken(occ, saved[k])
  {
  }
}
