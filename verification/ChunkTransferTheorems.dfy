/**
 The whole transfer: the sending group, any number of destinations, and every interleaving of their steps.
*/
module ChunkTransferTheorems {
  import opened Options
  import opened ShmManager
  import opened ChunkTransfer

  datatype State = State(sender: Sender, dests: seq<Dest>)

  datatype Action = SendSide(a: SendAction) | DestSide(i: nat, d: DestAction)

  function Init(p: Params, n: nat): State {
    State(InitSender(p), seq(n, _ => InitDest(p)))
  }

  /** asyncio.gather returns when every destination's coroutine has. */
  predicate AllPushed(p: Params, dests: seq<Dest>, r: nat)
    requires r < p.g
  {
    forall i :: 0 <= i < |dests| ==> |dests[i].links| == p.g && dests[i].links[r] == Pushed
  }

  predicate Can(p: Params, st: State, a: Action) {
    match a
    case SendSide(a) => SenderCan(p, st.sender, a) && (a.Gathered? ==> AllPushed(p, st.dests, a.r))
    case DestSide(i, d) => i < |st.dests| && DestCan(p, st.sender, st.dests[i], d)
  }

  function Next(p: Params, st: State, a: Action): State
    requires Can(p, st, a)
  {
    match a
    case SendSide(a) => st.(sender := SenderStep(p, st.sender, a))
    case DestSide(i, d) => st.(dests := st.dests[i := DestStep(p, st.sender, st.dests[i], d)])
  }

  /** Any schedule; what is not enabled does not happen. */
  function Run(p: Params, st: State, schedule: seq<Action>): State
    decreases |schedule|
  {
    if |schedule| == 0 then st
    else Run(p, if Can(p, st, schedule[0]) then Next(p, st, schedule[0]) else st, schedule[1..])
  }

  ghost predicate Inv(p: Params, st: State) {
    SenderOk(p, st.sender) && forall i :: 0 <= i < |st.dests| ==> DestOk(p, st.sender.calls, st.dests[i])
  }

  lemma InitInv(p: Params, n: nat)
    ensures Inv(p, Init(p, n))
  {
    InitSenderOk(p);
    InitDestOk(p);
  }

  lemma NextKeeps(p: Params, st: State, a: Action)
    requires Inv(p, st) && Can(p, st, a)
    ensures Inv(p, Next(p, st, a)) && |Next(p, st, a).dests| == |st.dests|
  {
    match a
    case SendSide(a) =>
      SenderKeeps(p, st.sender, a);
      forall i | 0 <= i < |st.dests| ensures DestOk(p, SenderStep(p, st.sender, a).calls, st.dests[i]) {
        SenderKeepsDest(p, st.sender, a, st.dests[i]);
      }
    case DestSide(i, d) =>
      DestKeeps(p, st.sender, st.dests[i], d);
  }

  lemma {:induction false} RunKeeps(p: Params, st: State, schedule: seq<Action>)
    requires Inv(p, st)
    ensures Inv(p, Run(p, st, schedule)) && |Run(p, st, schedule).dests| == |st.dests|
    decreases |schedule|
  {
    if |schedule| > 0 {
      if Can(p, st, schedule[0]) {
        NextKeeps(p, st, schedule[0]);
        RunKeeps(p, Next(p, st, schedule[0]), schedule[1..]);
      } else {
        RunKeeps(p, st, schedule[1..]);
      }
    }
  }

  // ---- safety ----

  /** The sender allocates once and frees once, after every shard has been sent to every destination. */
  lemma FreedOnceAllSent(p: Params, n: nat, schedule: seq<Action>)
    ensures var st := Run(p, Init(p, n), schedule);
            && st.sender.allocations <= 1 && st.sender.frees <= 1 && !st.sender.crashed
            && (st.sender.frees == 1 ==> |st.dests| == n && forall r :: 0 <= r < p.g ==> AllPushed(p, st.dests, r))
  {
    InitInv(p, n);
    RunKeeps(p, Init(p, n), schedule);
    var st := Run(p, Init(p, n), schedule);
    if st.sender.frees > 0 {
      forall r | 0 <= r < p.g ensures AllPushed(p, st.dests, r) {
        SentIsPushed(p, st, r);
      }
    }
  }

  lemma SentIsPushed(p: Params, st: State, r: nat)
    requires Inv(p, st) && r < p.g && st.sender.malloc == Some(true) && !st.sender.ledger
    ensures HasData(p, r) && AllPushed(p, st.dests, r)
  {
    var s := st.sender;
    assert s.sent[r] && CallOk(p, s, r);
    forall i | 0 <= i < |st.dests| ensures st.dests[i].links[r] == Pushed {
      var d := st.dests[i];
      assert DestOk(p, s.calls, d) && LinkOk(p, s.calls[r], d.links[r], d.handlers[r], d.wire[r], r);
    }
  }

  /** A destination allocates once and marks the chunk done once, when it holds the whole tensor. */
  lemma DoneOnceWhole(p: Params, n: nat, schedule: seq<Action>, i: nat)
    requires i < n
    ensures var st := Run(p, Init(p, n), schedule);
            && |st.dests| == n && st.dests[i].allocations <= 1 && st.dests[i].dones <= 1 && !st.dests[i].crashed
            && (st.dests[i].done <==> st.dests[i].dones == 1)
            && (st.dests[i].done ==> AllTrue(st.dests[i].avail) && st.dests[i].buffer == p.tensor)
  {
    InitInv(p, n);
    RunKeeps(p, Init(p, n), schedule);
    var st := Run(p, Init(p, n), schedule);
    LandedIsTensor(p, st.sender.calls, st.dests[i]);
  }

  lemma LandedIsTensor(p: Params, calls: seq<CallPc>, d: Dest)
    requires |calls| == p.g && DestOk(p, calls, d)
    ensures AllTrue(d.avail) ==> d.buffer == p.tensor
    ensures d.allocations <= 1
    ensures d.done ==> AllTrue(d.avail)
  {
    if AllTrue(d.avail) {
      forall r | 0 <= r < p.g ensures Copied(p, d.buffer, r) {
        assert HandlerOk(p, d, r) && d.avail[r];
      }
      AllCopied(p, d.buffer);
    }
  }

  /** With fewer elements than ranks, the empty shards' calls return before they count as sent. */
  lemma ShortNeverEnds(p: Params, n: nat, schedule: seq<Action>)
    requires |p.tensor| < p.g
    ensures var st := Run(p, Init(p, n), schedule);
            st.sender.frees == 0 && |st.dests| == n && forall i :: 0 <= i < n ==> !st.dests[i].done
  {
    InitInv(p, n);
    RunKeeps(p, Init(p, n), schedule);
    var st := Run(p, Init(p, n), schedule);
    var r := p.g - 1;
    ShardBounds(p, r);
    if st.sender.malloc == Some(true) && !st.sender.ledger {
      SentIsPushed(p, st, r);
      assert false;
    }
    forall i | 0 <= i < n ensures !st.dests[i].done {
      var d := st.dests[i];
      assert DestOk(p, st.sender.calls, d) && HandlerOk(p, d, r);
      assert LinkOk(p, st.sender.calls[r], d.links[r], d.handlers[r], d.wire[r], r);
      assert !d.avail[r];
    }
  }

  /**
   If the slab refuses the size, the first call raises and nothing else ever happens: no buffer is allocated
   or freed, the other calls never get past the wait for it, and no destination hears of the chunk.
   */
  lemma RefusedNeverStarts(p: Params, n: nat, schedule: seq<Action>)
    requires Refused(p)
    ensures var st := Run(p, Init(p, n), schedule);
            && st.dests == Init(p, n).dests && st.sender.allocations == 0 && st.sender.frees == 0
            && |st.sender.calls| == p.g && forall q :: 0 <= q < p.g ==> NotStarted(st.sender.calls[q])
  {
    InitInv(p, n);
    RunKeeps(p, Init(p, n), schedule);
    RefusedRun(p, Init(p, n), schedule, n);
    AllNotStarted(p, Run(p, Init(p, n), schedule));
  }

  /** Such a call is not called yet, in the allocation, waiting for it, or has raised. */
  predicate NotStarted(c: CallPc) { c == Idle || c == Allocating || c == Waiting || c == Failed }

  lemma AllNotStarted(p: Params, st: State)
    requires Inv(p, st) && Refused(p)
    ensures st.sender.malloc != Some(true) && st.sender.allocations == 0 && st.sender.frees == 0
    ensures forall q :: 0 <= q < p.g ==> NotStarted(st.sender.calls[q])
  {
    forall q | 0 <= q < p.g ensures NotStarted(st.sender.calls[q]) {
      assert CallOk(p, st.sender, q);
    }
  }

  lemma NoDestMoves(p: Params, st: State, a: Action, n: nat)
    requires Inv(p, st) && Refused(p) && st.dests == Init(p, n).dests
    ensures a.DestSide? ==> !Can(p, st, a)
  {
    AllNotStarted(p, st);
    if a.DestSide? && a.i < n && a.d.r < p.g { assert NotStarted(st.sender.calls[a.d.r]); }
  }

  lemma {:induction false} RefusedRun(p: Params, st: State, schedule: seq<Action>, n: nat)
    requires Inv(p, st) && Refused(p) && st.dests == Init(p, n).dests
    ensures Run(p, st, schedule).dests == Init(p, n).dests
    decreases |schedule|
  {
    if |schedule| > 0 {
      NoDestMoves(p, st, schedule[0], n);
      if Can(p, st, schedule[0]) {
        NextKeeps(p, st, schedule[0]);
        RefusedRun(p, Next(p, st, schedule[0]), schedule[1..], n);
      } else {
        RefusedRun(p, st, schedule[1..], n);
      }
    }
  }

  /** And a call that waits for the allocation waits for ever. */
  lemma {:induction false} RefusedWaitsForever(p: Params, n: nat, schedule: seq<Action>, more: seq<Action>, q: nat)
    requires Refused(p) && q < p.g
    requires var s := Run(p, Init(p, n), schedule).sender; q < |s.calls| && s.calls[q] == Waiting
    ensures var st := Run(p, Run(p, Init(p, n), schedule), more);
            q < |st.sender.calls| && st.sender.calls[q] == Waiting && !Can(p, st, SendSide(Resume(q)))
  {
    InitInv(p, n);
    RunKeeps(p, Init(p, n), schedule);
    WaitsOn(p, Run(p, Init(p, n), schedule), more, q);
  }

  lemma {:induction false} WaitsOn(p: Params, st: State, more: seq<Action>, q: nat)
    requires Inv(p, st) && Refused(p) && q < p.g && st.sender.calls[q] == Waiting
    ensures var t := Run(p, st, more);
            q < |t.sender.calls| && t.sender.calls[q] == Waiting && !Can(p, t, SendSide(Resume(q)))
    decreases |more|
  {
    AllNotStarted(p, st);
    if |more| > 0 {
      if Can(p, st, more[0]) {
        NextKeeps(p, st, more[0]);
        WaitsOn(p, Next(p, st, more[0]), more[1..], q);
      } else {
        WaitsOn(p, st, more[1..], q);
      }
    }
  }

  /** At rest, all calls but the first, which has raised, are waiting. */
  lemma RefusedAtRest(p: Params, n: nat, schedule: seq<Action>)
    requires Refused(p) && Quiescent(p, Run(p, Init(p, n), schedule))
    ensures var s := Run(p, Init(p, n), schedule).sender;
            && s.first < p.g == |s.calls|
            && forall q :: 0 <= q < p.g ==> s.calls[q] == if q == s.first then Failed else Waiting
  {
    InitInv(p, n);
    RunKeeps(p, Init(p, n), schedule);
    var st := Run(p, Init(p, n), schedule);
    AllNotStarted(p, st);
    forall q | 0 <= q < p.g
      ensures st.sender.calls[q] == Waiting || (st.sender.calls[q] == Failed && q == st.sender.first) {
      NotStuckBefore(p, st, q);
      assert NotStarted(st.sender.calls[q]) && CallOk(p, st.sender, q);
    }
    assert CallOk(p, st.sender, 0);
  }

  /** Two ranks with seven elements and slots of five: the first call raises and the second one waits. */
  lemma RefusedExample(n: nat)
    ensures var p: Params := RawParams(2, [0, 1, 2, 3, 4, 5, 6], 10, 5);
            && |p.tensor| >= p.g && Refused(p)
            && Run(p, Init(p, n), [SendSide(Call(0)), SendSide(Refuse(0)), SendSide(Call(1))]).sender.calls
                == [Failed, Waiting]
  {
    var p: Params := RawParams(2, [0, 1, 2, 3, 4, 5, 6], 10, 5);
    var a, b, c := SendSide(Call(0)), SendSide(Refuse(0)), SendSide(Call(1));
    ShardBounds(p, 0);
    ShardBounds(p, 1);
    assert [a, b, c][1..] == [b, c] && [b, c][1..] == [c] && [c][1..] == [];
    var s1 := Next(p, Init(p, n), a);
    assert s1.sender.calls == [Allocating, Idle];
    var s2 := Next(p, s1, b);
    assert s2.sender.calls == [Failed, Idle];
    assert Run(p, Init(p, n), [a, b, c]) == Run(p, s1, [b, c]) == Run(p, s2, [c]) == Next(p, s2, c);
  }

  // ---- completeness ----

  ghost predicate Quiescent(p: Params, st: State) {
    forall a :: !Can(p, st, a)
  }

  /**
   When nothing can happen any more, the buffer is freed and every destination done exactly if the tensor has
   an element for every rank and the slab does not refuse its size.
   */
  lemma QuiescentIsComplete(p: Params, n: nat, schedule: seq<Action>)
    requires Quiescent(p, Run(p, Init(p, n), schedule))
    ensures var st := Run(p, Init(p, n), schedule);
            && (st.sender.frees == 1 <==> |p.tensor| >= p.g && !Refused(p))
            && |st.dests| == n && (forall i :: 0 <= i < n ==> (st.dests[i].done <==> |p.tensor| >= p.g && !Refused(p)))
            && (|p.tensor| >= p.g && !Refused(p) ==> forall i :: 0 <= i < n ==> st.dests[i].buffer == p.tensor)
  {
    InitInv(p, n);
    RunKeeps(p, Init(p, n), schedule);
    var st := Run(p, Init(p, n), schedule);
    if |p.tensor| < p.g {
      ShortNeverEnds(p, n, schedule);
    } else if Refused(p) {
      RefusedNeverStarts(p, n, schedule);
    } else {
      AllReturned(p, st);
      forall r | 0 <= r < p.g ensures st.sender.sent[r] {
        ShardBounds(p, r);
        assert CallOk(p, st.sender, r);
      }
      assert AllTrue(st.sender.sent);
      forall i | 0 <= i < n ensures st.dests[i].done && st.dests[i].buffer == p.tensor {
        ArrivedEverywhere(p, st, i);
      }
    }
  }

  lemma AllReturned(p: Params, st: State)
    requires Inv(p, st) && Quiescent(p, st) && !Refused(p)
    ensures st.sender.malloc == Some(true) && forall r :: 0 <= r < p.g ==> st.sender.calls[r] == Returned
  {
    NotStuckBefore(p, st, 0);
    assert CallOk(p, st.sender, 0);
    if st.sender.malloc == Some(false) { NotStuckBefore(p, st, st.sender.first); }
    assert st.sender.malloc == Some(true);
    forall r | 0 <= r < p.g ensures st.sender.calls[r] == Returned {
      NotStuckBefore(p, st, r);
      NotSending(p, st, r);
    }
  }

  lemma NotStuckBefore(p: Params, st: State, r: nat)
    requires Inv(p, st) && Quiescent(p, st) && r < p.g
    ensures st.sender.calls[r] !in {Idle, Allocating, Copying, Freeing} && (st.sender.calls[r] == Failed ==> Refused(p))
    ensures st.sender.calls[r] == Waiting ==> st.sender.malloc != Some(true)
  {
    ShardBounds(p, r);
    assert CallOk(p, st.sender, r);
    assert !Can(p, st, SendSide(Call(r)));
    assert !Can(p, st, SendSide(Allocate(r, p.tensor)));
    assert !Can(p, st, SendSide(Refuse(r)));
    assert !Can(p, st, SendSide(Resume(r)));
    assert !Can(p, st, SendSide(CopyDone(r)));
    assert !Can(p, st, SendSide(FreeBuffer(r)));
  }

  lemma NotSending(p: Params, st: State, r: nat)
    requires Inv(p, st) && Quiescent(p, st) && r < p.g
    ensures st.sender.calls[r] != Sending
  {
    ShardBounds(p, r);
    if st.sender.calls[r] == Sending {
      forall i | 0 <= i < |st.dests| ensures st.dests[i].links[r] == Pushed {
        HandlerEnds(p, st, i, r);
      }
      assert Can(p, st, SendSide(Gathered(r)));
      assert false;
    }
  }

  /** Once a shard's call is sending, its handler at each destination comes to an end. */
  lemma HandlerEnds(p: Params, st: State, i: nat, r: nat)
    requires Inv(p, st) && Quiescent(p, st) && i < |st.dests| && r < p.g
    requires st.sender.calls[r] == Sending || st.dests[i].links[r] == Pushed
    ensures st.dests[i].links[r] == Pushed && st.dests[i].handlers[r] == Finished
  {
    var s, d := st.sender, st.dests[i];
    assert DestOk(p, s.calls, d);
    NotBlocked(p, st, i, r);
    if d.malloc == Some(false) && !AllTrue(d.avail) { NotBlocked(p, st, i, d.first); }
    assert HandlerOk(p, d, r) && LinkOk(p, s.calls[r], d.links[r], d.handlers[r], d.wire[r], r) && CallOk(p, s, r);
    assert AllTrue(d.avail) ==> d.avail[r];
    NotRunning(p, st, i, r);
  }

  lemma NotBlocked(p: Params, st: State, i: nat, r: nat)
    requires Inv(p, st) && Quiescent(p, st) && i < |st.dests| && r < p.g
    ensures var d := st.dests[i];
            && d.handlers[r] != Blocked && (d.handlers[r] == Absent ==> st.sender.calls[r] != Sending)
            && (d.handlers[r] == Queued ==> d.malloc != Some(true))
  {
    var d := st.dests[i];
    ShardBounds(p, r);
    assert DestOk(p, st.sender.calls, d);
    assert !Can(p, st, DestSide(i, Arrive(r)));
    assert !Can(p, st, DestSide(i, Reserve(r, p.tensor)));
    assert !Can(p, st, DestSide(i, Join(r)));
  }

  lemma NotRunning(p: Params, st: State, i: nat, r: nat)
    requires Inv(p, st) && Quiescent(p, st) && i < |st.dests| && r < p.g
    ensures var d := st.dests[i]; Running(d.handlers[r]) ==> d.links[r] == Pushed && d.handlers[r] == Finished
  {
    var d := st.dests[i];
    ShardBounds(p, r);
    assert DestOk(p, st.sender.calls, d) && CallOk(p, st.sender, r);
    assert HandlerOk(p, d, r) && LinkOk(p, st.sender.calls[r], d.links[r], d.handlers[r], d.wire[r], r);
    assert !Can(p, st, DestSide(i, Reply(r)));
    assert !Can(p, st, DestSide(i, Complete(r)));
    NotLanding(p, st, i, r);
  }

  lemma NotLanding(p: Params, st: State, i: nat, r: nat)
    requires Inv(p, st) && Quiescent(p, st) && i < |st.dests| && r < p.g
    ensures var d := st.dests[i]; Running(d.handlers[r]) && d.links[r] != Rpc ==> d.handlers[r] == Finished
  {
    var d := st.dests[i];
    ShardBounds(p, r);
    assert DestOk(p, st.sender.calls, d);
    assert HandlerOk(p, d, r) && LinkOk(p, st.sender.calls[r], d.links[r], d.handlers[r], d.wire[r], r);
    assert !Can(p, st, DestSide(i, Land(r)));
    assert !Can(p, st, DestSide(i, Clean(r)));
    assert !Can(p, st, DestSide(i, MarkDone(r)));
  }

  lemma ArrivedEverywhere(p: Params, st: State, i: nat)
    requires Inv(p, st) && Quiescent(p, st) && i < |st.dests|
    requires st.sender.malloc == Some(true) && !st.sender.ledger
    ensures st.dests[i].done && st.dests[i].buffer == p.tensor
  {
    var d := st.dests[i];
    assert DestOk(p, st.sender.calls, d);
    forall r | 0 <= r < p.g ensures d.avail[r] && d.handlers[r] == Finished {
      SentIsPushed(p, st, r);
      HandlerEnds(p, st, i, r);
      assert HandlerOk(p, d, r);
    }
    assert AllTrue(d.avail);
    LandedIsTensor(p, st.sender.calls, d);
  }

  // ---- termination ----

  function CallWork(c: CallPc): nat {
    match c
    case Idle => 5
    case Allocating => 4
    case Waiting => 4
    case Copying => 3
    case Sending => 2
    case Freeing => 1
    case Returned => 0
    case Failed => 0
  }

  function LinkWork(l: LinkPc): nat {
    match l
    case Rpc => 2
    case Pushing => 1
    case Pushed => 0
  }

  function HandlerWork(h: HandlerPc): nat {
    match h
    case Absent => 5
    case Blocked => 4
    case Queued => 4
    case Receiving => 3
    case Cleaning => 2
    case Marking => 1
    case Finished => 0
  }

  function Sum(xs: seq<nat>): nat {
    if |xs| == 0 then 0 else Sum(xs[..|xs| - 1]) + xs[|xs| - 1]
  }

  lemma {:induction false} SumDrops(xs: seq<nat>, ys: seq<nat>, i: nat)
    requires |xs| == |ys| && i < |xs| && ys[i] < xs[i]
    requires forall j :: 0 <= j < |xs| && j != i ==> xs[j] == ys[j]
    ensures Sum(ys) < Sum(xs)
    decreases |xs|
  {
    var n := |xs| - 1;
    if i < n {
      SumDrops(xs[..n], ys[..n], i);
    } else {
      assert xs[..n] == ys[..n];
    }
  }

  function CallsWork(calls: seq<CallPc>): seq<nat> { seq(|calls|, i requires 0 <= i < |calls| => CallWork(calls[i])) }

  function LinksWork(links: seq<LinkPc>): seq<nat> { seq(|links|, i requires 0 <= i < |links| => LinkWork(links[i])) }

  function HandlersWork(hs: seq<HandlerPc>): seq<nat> { seq(|hs|, i requires 0 <= i < |hs| => HandlerWork(hs[i])) }

  function DestWork(d: Dest): nat { Sum(LinksWork(d.links)) + Sum(HandlersWork(d.handlers)) }

  function DestsWork(dests: seq<Dest>): seq<nat> { seq(|dests|, i requires 0 <= i < |dests| => DestWork(dests[i])) }

  function Work(st: State): nat { Sum(CallsWork(st.sender.calls)) + Sum(DestsWork(st.dests)) }

  lemma SenderAdvances(p: Params, s: Sender, a: SendAction)
    requires SenderOk(p, s) && SenderCan(p, s, a)
    ensures Sum(CallsWork(SenderStep(p, s, a).calls)) < Sum(CallsWork(s.calls))
  {
    SenderKeeps(p, s, a);
    var t := SenderStep(p, s, a);
    assert !t.crashed && CallWork(t.calls[a.r]) < CallWork(s.calls[a.r]);
    SumDrops(CallsWork(s.calls), CallsWork(t.calls), a.r);
  }

  /** A step moves one coroutine or one handler, forward. */
  lemma DestMovesOne(p: Params, s: Sender, d: Dest, a: DestAction)
    requires DestCan(p, s, d, a) && !DestStep(p, s, d, a).crashed
    ensures var e := DestStep(p, s, d, a);
            if a.Reply? || a.Complete? then
              && e.handlers == d.handlers && e.links == d.links[a.r := e.links[a.r]]
              && LinkWork(e.links[a.r]) < LinkWork(d.links[a.r])
            else
              && e.links == d.links && e.handlers == d.handlers[a.r := e.handlers[a.r]]
              && HandlerWork(e.handlers[a.r]) < HandlerWork(d.handlers[a.r])
  {
  }

  lemma NeverCrashes(p: Params, s: Sender, d: Dest, a: DestAction)
    requires SenderOk(p, s) && DestOk(p, s.calls, d) && DestCan(p, s, d, a)
    ensures !DestStep(p, s, d, a).crashed && !d.crashed
  {
    DestKeeps(p, s, d, a);
  }

  lemma DestAdvances(p: Params, s: Sender, d: Dest, a: DestAction)
    requires SenderOk(p, s) && DestOk(p, s.calls, d) && DestCan(p, s, d, a)
    ensures DestWork(DestStep(p, s, d, a)) < DestWork(d)
  {
    NeverCrashes(p, s, d, a);
    DestMovesOne(p, s, d, a);
    var e := DestStep(p, s, d, a);
    if a.Reply? || a.Complete? {
      LinksDrop(d.links, a.r, e.links[a.r]);
    } else {
      HandlersDrop(d.handlers, a.r, e.handlers[a.r]);
    }
  }

  lemma LinksDrop(links: seq<LinkPc>, r: nat, l: LinkPc)
    requires r < |links| && LinkWork(l) < LinkWork(links[r])
    ensures Sum(LinksWork(links[r := l])) < Sum(LinksWork(links))
  {
    SumDrops(LinksWork(links), LinksWork(links[r := l]), r);
  }

  lemma HandlersDrop(hs: seq<HandlerPc>, r: nat, h: HandlerPc)
    requires r < |hs| && HandlerWork(h) < HandlerWork(hs[r])
    ensures Sum(HandlersWork(hs[r := h])) < Sum(HandlersWork(hs))
  {
    SumDrops(HandlersWork(hs), HandlersWork(hs[r := h]), r);
  }

  lemma NextAdvances(p: Params, st: State, a: Action)
    requires Inv(p, st) && Can(p, st, a)
    ensures Work(Next(p, st, a)) < Work(st)
  {
    match a
    case SendSide(a) =>
      SenderAdvances(p, st.sender, a);
    case DestSide(i, d) =>
      DestAdvances(p, st.sender, st.dests[i], d);
      SumDrops(DestsWork(st.dests), DestsWork(Next(p, st, a).dests), i);
  }

  /** Every step of the schedule is one that can happen. */
  predicate AllEnabled(p: Params, st: State, schedule: seq<Action>)
    decreases |schedule|
  {
    |schedule| > 0 ==> Can(p, st, schedule[0]) && AllEnabled(p, Next(p, st, schedule[0]), schedule[1..])
  }

  /** There are only finitely many steps, so every transfer comes to rest. */
  lemma {:induction false} RunsEnd(p: Params, st: State, schedule: seq<Action>)
    requires Inv(p, st) && AllEnabled(p, st, schedule)
    ensures |schedule| <= Work(st)
    decreases |schedule|
  {
    if |schedule| > 0 {
      NextKeeps(p, st, schedule[0]);
      NextAdvances(p, st, schedule[0]);
      RunsEnd(p, Next(p, st, schedule[0]), schedule[1..]);
    }
  }
}
