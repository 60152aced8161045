/**
 One tensor chunk shared with destinations on the sender's own node: they read the sender's buffer in
 place, so it is reference-counted. With single copy only rank 0 takes part, which is a group of one.
*/
module IntraNode {
  import opened Options
  import opened ShmManager
  import opened ChunkTransfer

  datatype DestPc =
    | Pending    // rank 0's coroutine has not called PrepareReceive yet
    | Told       // knows the buffer and reads it
    | LastOut    // its unlink was the last one, in _free
    | Unlinked

  /** `refs` and `saved` are the entries ref_counts[id] and saved_buffers[id]; `notFound` an unlink that was refused. */
  datatype State = State(s: Sender, refs: Option<nat>, saved: bool, dests: seq<DestPc>, freer: nat, frees: nat,
          notFound: bool)

  datatype Action =
    | Copy(a: SendAction)
    | Tell(i: nat)
    | Unlink(i: nat)
    | Free(i: nat)

  function Init(p: Params, n: nat): State {
    State(InitSender(p), None, false, seq(n, _ => Pending), 0, 0, false)
  }

  predicate Can(p: Params, st: State, a: Action) {
    match a
    case Copy(a) => SenderCan(p, st.s, a) && !a.Gathered? && !a.FreeBuffer?
    case Tell(i) => i < |st.dests| && |st.s.calls| == p.g && st.s.calls[0] == Sending && st.s.doneEvent == Some(true)
        && st.dests[i] == Pending
    case Unlink(i) => i < |st.dests| && st.dests[i] == Told
    case Free(i) => i < |st.dests| && st.dests[i] == LastOut
  }

  function Next(p: Params, st: State, a: Action): State
    requires Can(p, st, a)
  {
    match a
    case Copy(a) =>
      // the first call registers the count in the step that ends its copy
      var st' := st.(s := SenderStep(p, st.s, a));
      if a.CopyDone? && a.r == st.s.first then st'.(saved := true, refs := Some(|st.dests|)) else st'
    case Tell(i) =>
      st.(dests := st.dests[i := Told])
    case Unlink(i) =>
      if !st.saved || st.refs == None || st.refs == Some(0) then st.(notFound := true)
      else if st.refs.value == 1 then st.(refs := None, dests := st.dests[i := LastOut], freer := i)
      else st.(refs := Some(st.refs.value - 1), dests := st.dests[i := Unlinked])
    case Free(i) =>
      st.(saved := false, frees := st.frees + 1, dests := st.dests[i := Unlinked])
  }

  function Run(p: Params, st: State, schedule: seq<Action>): State
    decreases |schedule|
  {
    if |schedule| == 0 then st
    else Run(p, if Can(p, st, schedule[0]) then Next(p, st, schedule[0]) else st, schedule[1..])
  }

  /** The destinations that still hold the buffer or will. */
  function Holders(dests: seq<DestPc>): nat {
    if |dests| == 0 then 0
    else Holders(dests[..|dests| - 1]) + if dests[|dests| - 1] in {Pending, Told} then 1 else 0
  }

  function Weight(d: DestPc): nat { if d in {Pending, Told} then 1 else 0 }

  lemma {:induction false} HoldersUpdate(dests: seq<DestPc>, i: nat, d: DestPc)
    requires i < |dests|
    ensures Holders(dests[i := d]) == Holders(dests) - Weight(dests[i]) + Weight(d)
    ensures Weight(dests[i]) <= Holders(dests)
    decreases |dests|
  {
    var n := |dests| - 1;
    if i < n {
      HoldersUpdate(dests[..n], i, d);
      assert dests[i := d][..n] == dests[..n][i := d];
    } else {
      assert dests[i := d][..n] == dests[..n];
    }
  }

  lemma {:induction false} HoldersAll(dests: seq<DestPc>)
    requires forall i :: 0 <= i < |dests| ==> dests[i] == Pending
    ensures Holders(dests) == |dests|
  {
    if |dests| > 0 { HoldersAll(dests[..|dests| - 1]); }
  }

  lemma {:induction false} NoHolders(dests: seq<DestPc>)
    ensures Holders(dests) == 0 <==> forall i :: 0 <= i < |dests| ==> dests[i] !in {Pending, Told}
  {
    if |dests| > 0 {
      NoHolders(dests[..|dests| - 1]);
    }
  }

  // ---- the invariant ----

  ghost predicate Inv(p: Params, st: State) {
    && SenderOk(p, st.s) && |st.dests| > 0 && NeverReturned(p, st.s)
    && (st.notFound ==> EmptyFirst(p, st.s))
    && (Registered(p, st.s) ==> Counted(st))
    && (!Registered(p, st.s) ==> !st.saved && st.refs == None && st.frees == 0
                                 && forall i :: 0 <= i < |st.dests| ==> st.dests[i] in {Pending, Told})
    && (forall i :: 0 <= i < |st.dests| && st.dests[i] != Pending ==> st.s.doneEvent == Some(true))
  }

  /** The first call's shard is empty, so the call returned before it could register. */
  predicate EmptyFirst(p: Params, s: Sender) {
    s.malloc == Some(true) && s.first < p.g && !HasData(p, s.first)
  }

  /** Calls with data stay at gather here; what they do after it does not change the state. */
  ghost predicate NeverReturned(p: Params, s: Sender)
    requires |s.calls| == p.g
  {
    forall r :: 0 <= r < p.g ==> s.calls[r] != Freeing && (s.calls[r] == Returned ==> !HasData(p, r))
  }

  /** The first call has ended its copy and has registered the buffer. */
  predicate Registered(p: Params, s: Sender)
    requires |s.calls| == p.g
  {
    s.malloc == Some(true) && s.first < p.g && s.calls[s.first] == Sending
  }

  ghost predicate Counted(st: State) {
    var h := Holders(st.dests);
    if h > 0 then
      st.saved && st.refs == Some(h) && st.frees == 0 && forall i :: 0 <= i < |st.dests| ==> st.dests[i] != LastOut
    else
      && st.refs == None && st.freer < |st.dests|
      && (forall i :: 0 <= i < |st.dests| && i != st.freer ==> st.dests[i] == Unlinked)
      && (if st.dests[st.freer] == LastOut then st.saved && st.frees == 0
          else st.dests[st.freer] == Unlinked && !st.saved && st.frees == 1)
  }

  lemma InitInv(p: Params, n: nat)
    requires n > 0
    ensures Inv(p, Init(p, n))
  {
    InitSenderOk(p);
  }

  lemma NextKeeps(p: Params, st: State, a: Action)
    requires Inv(p, st) && Can(p, st, a)
    ensures Inv(p, Next(p, st, a)) && |Next(p, st, a).dests| == |st.dests|
  {
    match a
    case Copy(a) => CopyingKeeps(p, st, a);
    case Tell(i) => TellKeeps(p, st, i);
    case Unlink(i) => UnlinkKeeps(p, st, i);
    case Free(i) => HoldersUpdate(st.dests, i, Unlinked);
  }

  lemma CopyingKeeps(p: Params, st: State, a: SendAction)
    requires Inv(p, st) && Can(p, st, Copy(a))
    ensures Inv(p, Next(p, st, Copy(a)))
  {
    SenderKeeps(p, st.s, a);
    var s' := SenderStep(p, st.s, a);
    assert CallOk(p, st.s, a.r) && CallOk(p, s', a.r);
    if a.CopyDone? && a.r == st.s.first {
      assert !AllTrue(st.s.avail) by { assert !st.s.avail[a.r]; }
      forall i | 0 <= i < |st.dests| ensures st.dests[i] == Pending {}
      HoldersAll(st.dests);
    }
    FirstStays(p, st.s, a);
    if st.s.malloc == Some(true) { FirstIsFixed(p, st.s, a); }
    DoneStays(p, st.s, a);
  }

  lemma FirstStays(p: Params, s: Sender, a: SendAction)
    requires SenderOk(p, s) && SenderCan(p, s, a) && !a.Gathered? && !a.FreeBuffer? && NeverReturned(p, s)
    ensures |SenderStep(p, s, a).calls| == p.g && NeverReturned(p, SenderStep(p, s, a))
    ensures Registered(p, SenderStep(p, s, a)) <==> Registered(p, s) || (a.CopyDone? && a.r == s.first)
  {
    SenderKeeps(p, s, a);
    assert CallOk(p, s, a.r);
    if s.malloc == Some(false) { assert CallOk(p, s, s.first); }
  }

  /** Once there is a buffer, it is settled which call was the first. */
  lemma FirstIsFixed(p: Params, s: Sender, a: SendAction)
    requires SenderOk(p, s) && SenderCan(p, s, a) && s.malloc == Some(true)
    ensures SenderStep(p, s, a).malloc == Some(true) && SenderStep(p, s, a).first == s.first
  {
    assert CallOk(p, s, a.r);
  }

  lemma DoneStays(p: Params, s: Sender, a: SendAction)
    requires SenderOk(p, s) && SenderCan(p, s, a)
    ensures s.doneEvent == Some(true) ==> SenderStep(p, s, a).doneEvent == Some(true)
  {
    assert CallOk(p, s, a.r);
  }

  lemma TellKeeps(p: Params, st: State, i: nat)
    requires Inv(p, st) && Can(p, st, Tell(i))
    ensures Inv(p, Next(p, st, Tell(i)))
  {
    HoldersUpdate(st.dests, i, Told);
  }

  lemma UnlinkKeeps(p: Params, st: State, i: nat)
    requires Inv(p, st) && Can(p, st, Unlink(i))
    ensures Inv(p, Next(p, st, Unlink(i)))
  {
    var t := Next(p, st, Unlink(i));
    UnlinkRefusedIff(p, st, i);
    HoldersUpdate(st.dests, i, Unlinked);
    HoldersUpdate(st.dests, i, LastOut);
    NoHolders(t.dests);
  }

  lemma {:induction false} RunKeeps(p: Params, st: State, schedule: seq<Action>)
    requires Inv(p, st)
    ensures Inv(p, Run(p, st, schedule)) && |Run(p, st, schedule).dests| == |st.dests|
    decreases |schedule|
  {
    if |schedule| > 0 {
      if Can(p, st, schedule[0]) {
        NextKeeps(p, st, schedule[0]);
        RunKeeps(p, Next(p, st, schedule[0]), schedule[1..]);
      } else {
        RunKeeps(p, st, schedule[1..]);
      }
    }
  }

  // ---- theorems ----

  /** What a destination that has been told of the buffer can rely on. */
  ghost predicate Readable(p: Params, st: State, i: nat)
    requires i < |st.dests|
  {
    st.saved && st.frees == 0 && st.s.buffer == p.tensor
  }

  /**
   If the first call's shard has data, the count is registered before anybody learns of the buffer, no
   unlink is refused, and the buffer is kept for as long as a destination has it. If not, every unlink is
   refused. Either way the buffer holds the whole tensor by then, and it is freed exactly when the last
   destination is done.
   */
  lemma CountedIffFirstHasData(p: Params, n: nat, schedule: seq<Action>)
    requires n > 0
    ensures var st := Run(p, Init(p, n), schedule);
            && |st.dests| == n && st.frees <= 1
            && (st.frees == 1 <==> forall i :: 0 <= i < n ==> st.dests[i] == Unlinked)
            && (st.notFound ==> EmptyFirst(p, st.s))
            && (forall i :: 0 <= i < n && st.dests[i] != Pending ==> st.s.first < p.g && st.s.buffer == p.tensor)
            && (forall i :: 0 <= i < n && st.dests[i] == Told ==> (Readable(p, st, i) <==> HasData(p, st.s.first)))
            && (forall i :: 0 <= i < n && st.dests[i] == Told ==>
                (Next(p, st, Unlink(i)).notFound <==> !HasData(p, st.s.first)))
  {
    InitInv(p, n);
    RunKeeps(p, Init(p, n), schedule);
    var st := Run(p, Init(p, n), schedule);
    FreedIffUnlinked(p, st);
    forall i | 0 <= i < n && st.dests[i] != Pending ensures st.s.first < p.g && st.s.buffer == p.tensor {
      ToldIsWhole(p, st, i);
      ToldIsRegisteredIff(p, st, i);
    }
    forall i | 0 <= i < n && st.dests[i] == Told
      ensures st.s.first < p.g && (Readable(p, st, i) <==> HasData(p, st.s.first))
      ensures Next(p, st, Unlink(i)).notFound <==> !HasData(p, st.s.first)
    {
      UnlinkRefusedIff(p, st, i);
    }
  }

  /** With an element for every rank the first call's shard has data, whichever call that is. */
  lemma CountedUntilLastUnlink(p: Params, n: nat, schedule: seq<Action>)
    requires n > 0 && |p.tensor| >= p.g
    ensures var st := Run(p, Init(p, n), schedule);
            && |st.dests| == n && !st.notFound && st.frees <= 1
            && (forall i :: 0 <= i < n && st.dests[i] == Told ==> Readable(p, st, i))
            && (st.frees == 1 <==> forall i :: 0 <= i < n ==> st.dests[i] == Unlinked)
  {
    CountedIffFirstHasData(p, n, schedule);
    var st := Run(p, Init(p, n), schedule);
    if st.s.first < p.g { ShardBounds(p, st.s.first); }
  }

  /** A told destination is readable, and its unlink accepted, exactly if the first call's shard has data. */
  lemma UnlinkRefusedIff(p: Params, st: State, i: nat)
    requires Inv(p, st) && i < |st.dests| && st.dests[i] == Told
    ensures st.s.first < p.g && (Readable(p, st, i) <==> HasData(p, st.s.first))
    ensures Next(p, st, Unlink(i)).notFound <==> !HasData(p, st.s.first)
    ensures Next(p, st, Unlink(i)).notFound ==> EmptyFirst(p, st.s)
  {
    ToldIsWhole(p, st, i);
    ToldIsRegisteredIff(p, st, i);
    NoHolders(st.dests);
  }

  lemma FreedIffUnlinked(p: Params, st: State)
    requires Inv(p, st)
    ensures st.frees <= 1 && (st.frees == 1 <==> forall i :: 0 <= i < |st.dests| ==> st.dests[i] == Unlinked)
  {
    NoHolders(st.dests);
    if !Registered(p, st.s) {
      assert st.dests[0] != Unlinked;
    } else if Holders(st.dests) == 0 {
      assert st.dests[st.freer] == LastOut || st.dests[st.freer] == Unlinked;
    }
  }

  /** Before the done event is set, the first call has registered exactly if its shard has data. */
  lemma ToldIsRegisteredIff(p: Params, st: State, i: nat)
    requires Inv(p, st) && i < |st.dests| && st.dests[i] != Pending
    ensures st.s.malloc == Some(true) && st.s.first < p.g && (Registered(p, st.s) <==> HasData(p, st.s.first))
  {
    var s := st.s;
    assert s.doneEvent == Some(true) && AllTrue(s.avail);
    assert CallOk(p, s, s.first) && s.avail[s.first];
  }

  lemma ToldIsWhole(p: Params, st: State, i: nat)
    requires Inv(p, st) && i < |st.dests| && st.dests[i] != Pending
    ensures st.s.buffer == p.tensor
  {
    var s := st.s;
    forall r | 0 <= r < p.g ensures Copied(p, s.buffer, r) {
      ShardBounds(p, r);
      assert CallOk(p, s, r) && s.avail[r];
    }
    AllCopied(p, s.buffer);
  }

  // ---- when an unlink can be refused at all ----

  /** The empty last rank has come first, and the calls below `k` are done with their copies. */
  ghost predicate Copying(p: Params, st: State, k: nat) {
    && |st.s.calls| == |st.s.avail| == |st.s.sent| == p.g && |st.s.buffer| == |p.tensor|
    && st.s.malloc == Some(true) && st.s.ledger && st.s.first == p.g - 1 && st.s.avail[p.g - 1]
    && (forall i :: 0 <= i < |st.dests| ==> st.dests[i] == Pending)
    && (forall r :: 0 <= r < p.g - 1 ==> if r < k then st.s.avail[r] else st.s.calls[r] == Idle)
  }

  /** A schedule that begins with the last rank. */
  function LastFirst(p: Params, k: nat): seq<Action> {
    if k == 0 then [Copy(Call(p.g - 1)), Copy(Allocate(p.g - 1, p.tensor))]
    else LastFirst(p, k - 1) + [Copy(Call(k - 1)), Copy(Resume(k - 1)), Copy(CopyDone(k - 1))]
  }

  lemma LastFirstStart(p: Params, n: nat)
    requires n > 0 && 0 < |p.tensor| < p.g && !Refused(p)
    ensures var st := Run(p, Init(p, n), LastFirst(p, 0));
            |st.dests| == n && Copying(p, st, 0)
  {
    var st, r := Init(p, n), p.g - 1;
    var a, b := Copy(Call(r)), Copy(Allocate(r, p.tensor));
    ShardBounds(p, r);
    assert [a, b] == [a, b] + [];
    RunTwo(p, st, a, b, []);
  }

  /** One more rank: its call, then its copy if it has data. */
  lemma NextCopies(p: Params, st: State, k: nat)
    requires Copying(p, st, k) && k < p.g - 1
    ensures var t := Run(p, st, [Copy(Call(k)), Copy(Resume(k)), Copy(CopyDone(k))]);
            |t.dests| == |st.dests| && Copying(p, t, k + 1)
  {
    var a, b, c := Copy(Call(k)), Copy(Resume(k)), Copy(CopyDone(k));
    ShardBounds(p, k);
    assert [a, b, c] == [a, b] + [c] && [c] == [c] + [];
    RunTwo(p, st, a, b, [c]);
    var t := Next(p, Next(p, st, a), b);
    if HasData(p, k) {
      RunStep(p, t, c, []);
    } else {
      assert !Can(p, t, c);
      assert [c][1..] == [];
    }
  }

  lemma {:induction false} LastFirstCopies(p: Params, n: nat, k: nat)
    requires n > 0 && 0 < |p.tensor| < p.g && !Refused(p) && k <= p.g - 1
    ensures var st := Run(p, Init(p, n), LastFirst(p, k));
            |st.dests| == n && Copying(p, st, k)
  {
    if k == 0 {
      LastFirstStart(p, n);
    } else {
      LastFirstCopies(p, n, k - 1);
      NextCopies(p, Run(p, Init(p, n), LastFirst(p, k - 1)), k - 1);
      RunAppend(p, Init(p, n), LastFirst(p, k - 1), [Copy(Call(k - 1)), Copy(Resume(k - 1)), Copy(CopyDone(k - 1))]);
    }
  }

  /** Then rank 0 tells the first destination, and its unlink is refused. */
  lemma CopiedIsRefused(p: Params, st: State)
    requires Inv(p, st) && Copying(p, st, p.g - 1) && 0 < |p.tensor| < p.g
    ensures Run(p, st, [Tell(0), Unlink(0)]).notFound
  {
    assert AllTrue(st.s.avail);
    ShardBounds(p, p.g - 1);
    FirstHasData(p);
    assert CallOk(p, st.s, 0) && st.s.avail[0];
    NextKeeps(p, st, Tell(0));
    var t := Next(p, st, Tell(0));
    UnlinkRefusedIff(p, t, 0);
    assert [Tell(0), Unlink(0)] == [Tell(0), Unlink(0)] + [];
    RunTwo(p, st, Tell(0), Unlink(0), []);
  }

  lemma FirstHasData(p: Params)
    requires |p.tensor| > 0
    ensures HasData(p, 0)
  {
    ShardAtIs(|p.tensor|, p.g, 0);
    Quotient(|p.tensor|, p.g);
  }

  /**
   Some schedule ends in a refused unlink if and only if the tensor has fewer elements than the group has
   ranks, but a size that the slab accepts.
   */
  lemma SomeUnlinkRefusedIff(p: Params, n: nat)
    requires n > 0
    ensures (exists schedule :: Run(p, Init(p, n), schedule).notFound) <==> |p.tensor| < p.g && !Refused(p)
  {
    if schedule :| Run(p, Init(p, n), schedule).notFound {
      CountedIffFirstHasData(p, n, schedule);
      var s := Run(p, Init(p, n), schedule).s;
      InitInv(p, n);
      RunKeeps(p, Init(p, n), schedule);
      ShardBounds(p, s.first);
    }
    if |p.tensor| < p.g && !Refused(p) {
      var schedule := LastFirst(p, p.g - 1);
      LastFirstCopies(p, n, p.g - 1);
      InitInv(p, n);
      RunKeeps(p, Init(p, n), schedule);
      CopiedIsRefused(p, Run(p, Init(p, n), schedule));
      RunAppend(p, Init(p, n), schedule, [Tell(0), Unlink(0)]);
      assert Run(p, Init(p, n), schedule + [Tell(0), Unlink(0)]).notFound;
    }
  }

  lemma {:induction false} RunAppend(p: Params, st: State, xs: seq<Action>, ys: seq<Action>)
    ensures Run(p, st, xs + ys) == Run(p, Run(p, st, xs), ys)
    decreases |xs|
  {
    if |xs| == 0 {
      assert xs + ys == ys;
    } else {
      assert (xs + ys)[1..] == xs[1..] + ys;
      RunAppend(p, if Can(p, st, xs[0]) then Next(p, st, xs[0]) else st, xs[1..], ys);
    }
  }

  lemma RunStep(p: Params, st: State, a: Action, rest: seq<Action>)
    requires Can(p, st, a)
    ensures Run(p, st, [a] + rest) == Run(p, Next(p, st, a), rest)
  {
    assert ([a] + rest)[1..] == rest;
  }

  lemma RunTwo(p: Params, st: State, a: Action, b: Action, rest: seq<Action>)
    requires Can(p, st, a) && Can(p, Next(p, st, a), b)
    ensures Run(p, st, [a, b] + rest) == Run(p, Next(p, Next(p, st, a), b), rest)
  {
    assert [a, b] + rest == [a] + ([b] + rest);
    RunStep(p, st, a, [b] + rest);
    RunStep(p, Next(p, st, a), b, rest);
  }

  // Two ranks, one element, and the call of the rank without data comes first.

  const TWO: Params := RawParams(2, [7], 1, 1)

  /** After that call, and after the other one has copied the element. */
  const EMPTY_CALL_DONE := State(Sender(Some(true), Some(false), true, [0], [false, true], [false, false],
          [Idle, Returned], 1, 0, 1, 0, false),
                               None, false, [Pending], 0, 0, false)
  const BOTH_DONE := State(Sender(Some(true), Some(true), true, [7], [true, true], [false, false],
          [Sending, Returned], 1, 0, 1, 0, false),
                          None, false, [Pending], 0, 0, false)

  lemma EmptyCallFirst()
    ensures var st := Init(TWO, 1);
            && Can(TWO, st, Copy(Call(1))) && Can(TWO, Next(TWO, st, Copy(Call(1))), Copy(Allocate(1, [0])))
            && Next(TWO, Next(TWO, st, Copy(Call(1))), Copy(Allocate(1, [0]))) == EMPTY_CALL_DONE
  {
    assert ShardOf(TWO, 1) == Shard(1, 0) && !HasData(TWO, 1);
    var avail := Nones(2)[1 := true];
    assert avail == [false, true] && !avail[0] && !AllTrue(avail);
  }

  lemma DataCallSecond()
    ensures Can(TWO, EMPTY_CALL_DONE, Copy(Call(0)))
    ensures var st := Next(TWO, EMPTY_CALL_DONE, Copy(Call(0)));
            && Can(TWO, st, Copy(Resume(0))) && Can(TWO, Next(TWO, st, Copy(Resume(0))), Copy(CopyDone(0)))
            && Next(TWO, Next(TWO, st, Copy(Resume(0))), Copy(CopyDone(0))) == BOTH_DONE
  {
    assert ShardOf(TWO, 0) == Shard(0, 1) && HasData(TWO, 0);
    var st := Next(TWO, Next(TWO, EMPTY_CALL_DONE, Copy(Call(0))), Copy(Resume(0)));
    assert st.s.buffer == [0] && Blit([0], Shard(0, 1), Slice([7], Shard(0, 1))) == [7];
    assert [false, true][0 := true] == [true, true];
  }

  /** Then the destination is told of the buffer, and its unlink is refused. */
  lemma RefusedUnlinkExample()
    ensures var schedule := [Copy(Call(1)), Copy(Allocate(1, [0]))]
              + ([Copy(Call(0)), Copy(Resume(0))] + ([Copy(CopyDone(0)), Tell(0)] + []));
            Run(TWO, Init(TWO, 1), schedule).dests == [Told]
    ensures var schedule := [Copy(Call(1)), Copy(Allocate(1, [0]))]
              + ([Copy(Call(0)), Copy(Resume(0))] + ([Copy(CopyDone(0)), Tell(0)] + [Unlink(0)]));
            Run(TWO, Init(TWO, 1), schedule).notFound
  {
    EmptyCallFirst();
    DataCallSecond();
    var told := Next(TWO, BOTH_DONE, Tell(0));
    var resumed := Next(TWO, Next(TWO, EMPTY_CALL_DONE, Copy(Call(0))), Copy(Resume(0)));
    forall tail: seq<Action>
      ensures Run(TWO, Init(TWO, 1),
                [Copy(Call(1)), Copy(Allocate(1, [0]))]
                + ([Copy(Call(0)), Copy(Resume(0))] + ([Copy(CopyDone(0)), Tell(0)] + tail)))
              == Run(TWO, told, tail)
    {
      RunTwo(TWO, resumed, Copy(CopyDone(0)), Tell(0), tail);
      RunTwo(TWO, EMPTY_CALL_DONE, Copy(Call(0)), Copy(Resume(0)), [Copy(CopyDone(0)), Tell(0)] + tail);
      RunTwo(TWO, Init(TWO, 1), Copy(Call(1)), Copy(Allocate(1, [0])),
          [Copy(Call(0)), Copy(Resume(0))] + ([Copy(CopyDone(0)), Tell(0)] + tail));
    }
    RunStep(TWO, told, Unlink(0), []);
    assert [Unlink(0)] + [] == [Unlink(0)];
  }
}
