/**
 The receiver's ledger entry of one request: chunks arrive, the stream is closed and `receive` calls wait
 on one event that is cleared by whoever finds nothing. Each step is the code between two awaits.
*/
module ReceiveLedger {

  datatype Chunk = Obj | Tensor(done: bool)

  datatype Pc =
    | Suspended(late: bool)    // in done_event.wait(); `late`: its chunk was ready when it came
    | Woken                    // the event was set since; it runs on even if the event is cleared again
    | Got                      // returned its chunk
    | EndOfStream(n: int)      // returned None, because its chunk id is not below `n`

  datatype Call = Call(chunk: nat, pc: Pc)

  /** `present` says that the ledger has an entry; -1 stands for a number of chunks nobody has told. */
  datatype State = State(present: bool, num: int, chunks: map<nat, Chunk>, event: bool, calls: seq<Call>,
          declared: set<int>)

  /** The numbers of chunks are whatever the messages carry; nobody checks them. */
  datatype Action =
    | PrepareTensor(c: nat, n: int)  // first handler of an inter-node chunk
    | Landed(c: nat)                 // all of its shards are there
    | PrepareNow(c: nat, n: int)     // an object, or a tensor on the same node
    | Close(n: int)
    | Receive(c: nat)
    | Resume(k: nat)                 // a woken call runs

  const INIT := State(false, -1, map[], false, [], {})

  predicate Ready(st: State, c: nat) {
    c in st.chunks && (st.chunks[c].Obj? || st.chunks[c].done)
  }

  predicate Can(st: State, a: Action) {
    match a
    case PrepareTensor(c, _) => c !in st.chunks
    case Landed(c) => c in st.chunks && st.chunks[c] == Tensor(false)
    case PrepareNow(c, _) => c !in st.chunks
    case Close(_) => true
    case Receive(_) => true
    case Resume(k) => k < |st.calls| && st.calls[k].pc == Woken
  }

  /** Event.set wakes every call that waits on it. */
  function Set(st: State): State {
    st.(event := true, calls := WakeAll(st.calls))
  }

  function WakeAll(calls: seq<Call>): (r: seq<Call>)
    ensures |r| == |calls|
  {
    seq(|calls|, k requires 0 <= k < |calls| => Wake(calls[k]))
  }

  function Wake(call: Call): Call {
    if call.pc.Suspended? then call.(pc := Woken) else call
  }

  /** A number of chunks that comes with a chunk only replaces the placeholder. */
  function WithChunk(st: State, c: nat, chunk: Chunk, n: int): State {
    st.(present := true, num := if st.present && st.num != -1 then st.num else n,
        chunks := st.chunks[c := chunk], declared := st.declared + {n})
  }

  /** The body of the loop in `receive` for call `k`. */
  function Check(st: State, k: nat): State
    requires k < |st.calls|
  {
    var c := st.calls[k].chunk;
    if st.num != 0 && c >= st.num then SetPc(st, k, EndOfStream(st.num))
    else if !Ready(st, c) then SetPc(st, k, Suspended(false)).(event := false)
    else SetPc(st, k, Got)
  }

  function SetPc(st: State, k: nat, pc: Pc): State
    requires k < |st.calls|
  {
    st.(calls := st.calls[k := st.calls[k].(pc := pc)])
  }

  function Next(st: State, a: Action): State
    requires Can(st, a)
  {
    match a
    case PrepareTensor(c, n) => WithChunk(st, c, Tensor(false), n)
    case Landed(c) => Set(st.(chunks := st.chunks[c := Tensor(true)]))
    case PrepareNow(c, n) => Set(WithChunk(st, c, Obj, n))
    case Close(n) => Set(st.(present := true, num := n, declared := st.declared + {n}))
    case Receive(c) =>
      var st' := st.(present := true, calls := st.calls + [Call(c, Suspended(Ready(st, c)))]);
      if st.event then Check(st', |st.calls|) else st'
    case Resume(k) => Check(st, k)
  }

  function Run(st: State, schedule: seq<Action>): State
    decreases |schedule|
  {
    if |schedule| == 0 then st
    else Run(if Can(st, schedule[0]) then Next(st, schedule[0]) else st, schedule[1..])
  }

  // ---- the invariant ----

  /** All chunks of a request whose length is known have arrived. */
  ghost predicate AllReady(st: State) {
    st.num > 0 && forall c: nat :: c < st.num ==> Ready(st, c)
  }

  /** A chunk is there whose number of chunks was the placeholder's. */
  ghost predicate EarlyReady(st: State) {
    st.num == -1 && exists c: nat :: Ready(st, c)
  }

  ghost predicate Inv(st: State) {
    && (!st.present ==> st.num == -1) && (st.num != -1 ==> st.num in st.declared)
    && (st.chunks != map[] || st.event ==> st.present && st.num in st.declared)
    && (AllReady(st) || EarlyReady(st) ==> st.event)
    && (forall k :: 0 <= k < |st.calls| ==> CallOk(st, st.calls[k]))
  }

  ghost predicate CallOk(st: State, call: Call) {
    match call.pc
    case Suspended(late) => (!late ==> !Ready(st, call.chunk)) && !AllReady(st) && !EarlyReady(st)
    case Woken => st.num in st.declared
    case Got => Ready(st, call.chunk)
    case EndOfStream(n) => n != 0 && n <= call.chunk && n in st.declared
  }

  lemma NextKeeps(st: State, a: Action)
    requires Inv(st) && Can(st, a)
    ensures Inv(Next(st, a))
  {
    match a
    case PrepareTensor(c, n) => PrepareKeeps(st, c, n);
    case Landed(c) => SetKeeps(st, st.(chunks := st.chunks[c := Tensor(true)]));
    case PrepareNow(c, n) => SetKeeps(st, WithChunk(st, c, Obj, n));
    case Close(n) => SetKeeps(st, st.(present := true, num := n, declared := st.declared + {n}));
    case Receive(c) => ReceiveKeeps(st, c);
    case Resume(k) => CheckKeeps(st, k);
  }

  lemma PrepareKeeps(st: State, c: nat, n: int)
    requires Inv(st) && c !in st.chunks
    ensures Inv(WithChunk(st, c, Tensor(false), n))
  {
    var t := WithChunk(st, c, Tensor(false), n);
    assert forall x: nat :: Ready(t, x) == Ready(st, x);
    if AllReady(t) && st.num == -1 { assert Ready(t, 0); }
    forall k | 0 <= k < |t.calls| ensures CallOk(t, t.calls[k]) { assert CallOk(st, st.calls[k]); }
  }

  /** `t` is `st` with more chunks ready, or with another number of chunks; then the event is set. */
  lemma SetKeeps(st: State, t: State)
    requires Inv(st) && t.calls == st.calls && st.declared <= t.declared && t.num in t.declared && t.present
    requires forall x: nat :: Ready(st, x) ==> Ready(t, x)
    ensures Inv(Set(t))
  {
    var u := Set(t);
    forall k | 0 <= k < |u.calls| ensures CallOk(u, u.calls[k]) { assert CallOk(st, st.calls[k]); }
  }

  lemma CheckKeeps(st: State, k: nat)
    requires Inv(st) && k < |st.calls| && st.calls[k].pc == Woken
    ensures Inv(Check(st, k))
  {
    var t := Check(st, k);
    assert CallOk(st, st.calls[k]);
    assert forall x: nat :: Ready(t, x) == Ready(st, x);
    forall j | 0 <= j < |t.calls| ensures CallOk(t, t.calls[j]) { assert CallOk(st, st.calls[j]); }
  }

  lemma ReceiveKeeps(st: State, c: nat)
    requires Inv(st)
    ensures Inv(Next(st, Receive(c)))
  {
    var k := |st.calls|;
    var pc := if st.event then Woken else Suspended(Ready(st, c));
    var t := st.(present := true, calls := st.calls + [Call(c, pc)]);
    assert forall x: nat :: Ready(t, x) == Ready(st, x);
    forall j | 0 <= j < |t.calls| ensures CallOk(t, t.calls[j]) { if j < k { assert CallOk(st, st.calls[j]); } }
    assert Inv(t);
    if st.event {
      CheckKeeps(t, k);
      assert Next(st, Receive(c)) == Check(t, k) by {
        assert (st.calls + [Call(c, Suspended(Ready(st, c)))])[..k] == t.calls[..k];
      }
    }
  }

  lemma {:induction false} RunKeeps(st: State, schedule: seq<Action>)
    requires Inv(st)
    ensures Inv(Run(st, schedule))
    decreases |schedule|
  {
    if |schedule| > 0 {
      if Can(st, schedule[0]) {
        NextKeeps(st, schedule[0]);
        RunKeeps(Next(st, schedule[0]), schedule[1..]);
      } else {
        RunKeeps(st, schedule[1..]);
      }
    }
  }

  // ---- theorems ----

  /**
   A call returns its own chunk, fully arrived, or end-of-stream for a declared number of chunks that is not
   zero and not above its id. Numbers of chunks that count something are positive then.
   */
  lemma ReturnsAreRight(schedule: seq<Action>, k: nat)
    requires k < |Run(INIT, schedule).calls|
    ensures var st := Run(INIT, schedule);
            var call := st.calls[k];
            && (call.pc.Got? ==> Ready(st, call.chunk))
            && (call.pc.EndOfStream? ==> call.pc.n != 0 && call.pc.n <= call.chunk && call.pc.n in st.declared)
            && (call.pc.EndOfStream? && (forall n :: n in st.declared ==> n >= 0) ==> 0 < call.pc.n)
            && (st.event || call.pc.Woken? ==> st.num in st.declared)
  {
    RunKeeps(INIT, schedule);
    assert CallOk(Run(INIT, schedule), Run(INIT, schedule).calls[k]);
  }

  /** A call that was waiting when its chunk arrived does not go on waiting. */
  lemma EarlyCallsAreWoken(schedule: seq<Action>, k: nat)
    requires k < |Run(INIT, schedule).calls|
    ensures var st := Run(INIT, schedule);
            Ready(st, st.calls[k].chunk) && st.calls[k].pc.Suspended? ==> st.calls[k].pc.late
  {
    RunKeeps(INIT, schedule);
    assert CallOk(Run(INIT, schedule), Run(INIT, schedule).calls[k]);
  }

  predicate Sets(a: Action) { a.Landed? || a.PrepareNow? || a.Close? }

  /**
   An arrival or a close wakes every waiting call for good: it can run whatever happens in between, also if
   the event is cleared again before.
   */
  lemma {:induction false} ArrivalWakesForGood(schedule: seq<Action>, a: Action, more: seq<Action>, k: nat)
    requires var st := Run(INIT, schedule);
             Can(st, a) && Sets(a) && k < |st.calls| && (st.calls[k].pc.Suspended? || st.calls[k].pc.Woken?)
    requires Resume(k) !in more
    ensures Can(Run(Next(Run(INIT, schedule), a), more), Resume(k))
  {
    WokenStays(Next(Run(INIT, schedule), a), more, k);
  }

  lemma {:induction false} WokenStays(st: State, more: seq<Action>, k: nat)
    requires k < |st.calls| && st.calls[k].pc == Woken && Resume(k) !in more
    ensures var t := Run(st, more); k < |t.calls| && t.calls[k] == st.calls[k]
    decreases |more|
  {
    if |more| > 0 {
      assert more[0] != Resume(k) && Resume(k) !in more[1..];
      if Can(st, more[0]) {
        var t := Next(st, more[0]);
        assert k < |t.calls| && t.calls[k] == st.calls[k];
        WokenStays(t, more[1..], k);
      } else {
        WokenStays(st, more[1..], k);
      }
    }
  }

  /** Once all chunks are there, nothing clears the event again, and no call waits or will wait. */
  lemma {:induction false} AllReadyStays(schedule: seq<Action>, more: seq<Action>)
    requires AllReady(Run(INIT, schedule)) && forall a :: a in more && a.Close? ==> a.n == Run(INIT, schedule).num
    ensures var st := Run(Run(INIT, schedule), more);
            AllReady(st) && st.event && forall k :: 0 <= k < |st.calls| ==> !st.calls[k].pc.Suspended?
  {
    RunKeeps(INIT, schedule);
    AllReadyKept(Run(INIT, schedule), more);
  }

  lemma {:induction false} AllReadyKept(st: State, more: seq<Action>)
    requires Inv(st) && AllReady(st) && forall a :: a in more && a.Close? ==> a.n == st.num
    ensures var t := Run(st, more);
            AllReady(t) && t.event && forall k :: 0 <= k < |t.calls| ==> !t.calls[k].pc.Suspended?
    decreases |more|
  {
    if |more| == 0 {
      forall k | 0 <= k < |st.calls| ensures !st.calls[k].pc.Suspended? { assert CallOk(st, st.calls[k]); }
    } else {
      assert forall a :: a in more[1..] ==> a in more;
      if Can(st, more[0]) {
        NextKeeps(st, more[0]);
        var t := Next(st, more[0]);
        assert more[0] in more;
        assert forall c: nat :: Ready(st, c) ==> Ready(t, c);
        AllReadyKept(t, more[1..]);
      } else {
        AllReadyKept(st, more[1..]);
      }
    }
  }

  /** From then on every call returns when it runs, and a new one returns at once. */
  lemma {:induction false} AllReadyReturns(schedule: seq<Action>, more: seq<Action>, k: nat, c: nat)
    requires AllReady(Run(INIT, schedule)) && forall a :: a in more && a.Close? ==> a.n == Run(INIT, schedule).num
    ensures var st := Run(Run(INIT, schedule), more);
            && (Can(st, Resume(k)) ==> Next(st, Resume(k)).calls[k].pc == Answer(st.num, st.calls[k].chunk))
            && Next(st, Receive(c)).calls[|st.calls|].pc == Answer(st.num, c)
  {
    AllReadyStays(schedule, more);
  }

  /** The answer to a receive of chunk `c` of `n` chunks that are all there. */
  function Answer(n: int, c: nat): Pc { if c < n then Got else EndOfStream(n) }

  /** Whether the `i`-th action of a schedule takes place, and the state that it finds. */
  function Before(schedule: seq<Action>, i: nat): State
    requires i <= |schedule|
  {
    Run(INIT, schedule[..i])
  }

  predicate Takes(schedule: seq<Action>, i: nat)
    requires i < |schedule|
  {
    Can(Before(schedule, i), schedule[i])
  }

  /** A receive that looks for its chunk in vain: it clears the event. */
  predicate FindsNothing(st: State, a: Action)
    requires Can(st, a)
  {
    match a
    case Receive(c) => st.event && Next(st, a).calls[|st.calls|].pc.Suspended?
    case Resume(k) => Next(st, a).calls[k].pc.Suspended?
    case _ => false
  }

  /** The `i`-th action set the event, and no receive has looked in vain since. */
  ghost predicate SetAt(schedule: seq<Action>, i: nat)
    requires i < |schedule|
  {
    && Takes(schedule, i) && Sets(schedule[i])
    && forall j :: i < j < |schedule| && Takes(schedule, j) ==> !FindsNothing(Before(schedule, j), schedule[j])
  }

  lemma {:induction false} RunSnoc(st: State, schedule: seq<Action>, a: Action)
    ensures var t := Run(st, schedule);
            Run(st, schedule + [a]) == if Can(t, a) then Next(t, a) else t
    decreases |schedule|
  {
    if |schedule| == 0 {
      assert ([a])[1..] == [];
    } else {
      assert (schedule + [a])[1..] == schedule[1..] + [a];
      RunSnoc(if Can(st, schedule[0]) then Next(st, schedule[0]) else st, schedule[1..], a);
    }
  }

  /** A longer schedule begins with the same actions. */
  lemma TakesFront(schedule: seq<Action>, a: Action, i: nat)
    requires i <= |schedule|
    ensures (schedule + [a])[i] == if i < |schedule| then schedule[i] else a
    ensures Takes(schedule + [a], i) == if i < |schedule| then Takes(schedule, i) else Can(Run(INIT, schedule), a)
  {
    assert (schedule + [a])[..i] == schedule[..i];
    assert i == |schedule| ==> schedule[..i] == schedule;
  }

  /** Chunk `c` arrived with the `i`-th action: as an object or a buffer on this node, or with its last shard. */
  predicate ArrivedAt(schedule: seq<Action>, c: nat, i: nat)
    requires i < |schedule|
  {
    Takes(schedule, i) && (schedule[i] == Landed(c) || (schedule[i].PrepareNow? && schedule[i].c == c))
  }

  /** The receiver was told of chunk `c` with the `i`-th action. */
  predicate ToldAt(schedule: seq<Action>, c: nat, i: nat)
    requires i < |schedule|
  {
    Takes(schedule, i) && (schedule[i].PrepareTensor? || schedule[i].PrepareNow?) && schedule[i].c == c
  }

  ghost predicate Arrived(schedule: seq<Action>, c: nat) {
    exists i :: 0 <= i < |schedule| && ArrivedAt(schedule, c, i)
  }

  ghost predicate IsTold(schedule: seq<Action>, c: nat) {
    exists i :: 0 <= i < |schedule| && ToldAt(schedule, c, i)
  }

  lemma ArrivedSnoc(schedule: seq<Action>, a: Action, c: nat)
    ensures var takes := Can(Run(INIT, schedule), a);
            && (Arrived(schedule + [a], c) <==>
                Arrived(schedule, c) || (takes && (a == Landed(c) || (a.PrepareNow? && a.c == c))))
            && (IsTold(schedule + [a], c) <==>
                IsTold(schedule, c) || (takes && (a.PrepareTensor? || a.PrepareNow?) && a.c == c))
  {
    var all, n := schedule + [a], |schedule|;
    forall i | 0 <= i < n
      ensures ArrivedAt(all, c, i) == ArrivedAt(schedule, c, i) && ToldAt(all, c, i) == ToldAt(schedule, c, i)
    {
      TakesFront(schedule, a, i);
    }
    TakesFront(schedule, a, n);
    assert ArrivedAt(all, c, n) || !ArrivedAt(all, c, n);
    assert ToldAt(all, c, n) || !ToldAt(all, c, n);
  }

  lemma ReadyStep(st: State, a: Action, c: nat)
    requires Can(st, a)
    ensures Ready(Next(st, a), c) <==> Ready(st, c) || a == Landed(c) || (a.PrepareNow? && a.c == c)
    ensures c in Next(st, a).chunks <==> c in st.chunks || ((a.PrepareTensor? || a.PrepareNow?) && a.c == c)
  {
  }

  /** A chunk is there exactly if it has arrived, and it is known exactly if the receiver was told of it. */
  lemma {:induction false} ReadyIffArrived(schedule: seq<Action>, c: nat)
    ensures Ready(Run(INIT, schedule), c) <==> Arrived(schedule, c)
    ensures c in Run(INIT, schedule).chunks <==> IsTold(schedule, c)
    decreases |schedule|
  {
    if |schedule| > 0 {
      var front, a := schedule[..|schedule| - 1], schedule[|schedule| - 1];
      assert schedule == front + [a];
      ReadyIffArrived(front, c);
      RunSnoc(INIT, front, a);
      if Can(Run(INIT, front), a) { ReadyStep(Run(INIT, front), a, c); }
      ArrivedSnoc(front, a, c);
    }
  }

  /** A chunk is told of once, and it lands once, after that. */
  lemma ArrivesOnce(schedule: seq<Action>, c: nat, n: int)
    ensures var st := Run(INIT, schedule);
            && (Can(st, PrepareTensor(c, n)) <==> !IsTold(schedule, c))
            && (Can(st, PrepareNow(c, n)) <==> !IsTold(schedule, c))
            && (Can(st, Landed(c)) <==> IsTold(schedule, c) && !Arrived(schedule, c))
  {
    ReadyIffArrived(schedule, c);
  }

  /**
   Once a chunk has arrived, a call for it that runs gets it, unless the stream ends before it; so does a new
   call, which runs at once if the event is set and else waits.
  */
  lemma ArrivedIsReturned(schedule: seq<Action>, c: nat, k: nat)
    requires Arrived(schedule, c)
    ensures var st := Run(INIT, schedule);
            var answer := if EndsAt(st.num, c) then EndOfStream(st.num) else Got;
            && (Can(st, Resume(k)) && st.calls[k].chunk == c ==> Next(st, Resume(k)).calls[k].pc == answer)
            && (Next(st, Receive(c)).calls[|st.calls|] == Call(c, if st.event then answer else Suspended(true)))
  {
    ReadyIffArrived(schedule, c);
  }

  predicate EndsAt(n: int, c: nat) { n != 0 && n <= c }

  lemma SetAtFront(schedule: seq<Action>, a: Action, i: nat)
    requires i < |schedule|
    ensures SetAt(schedule + [a], i) <==>
            SetAt(schedule, i) && (Can(Run(INIT, schedule), a) ==> !FindsNothing(Run(INIT, schedule), a))
  {
    var all, n := schedule + [a], |schedule|;
    assert all[..n] == schedule;
    forall j | 0 <= j <= n ensures Before(all, j) == Before(schedule, j) { assert all[..j] == schedule[..j]; }
    forall j | 0 <= j < n ensures all[j] == schedule[j] {}
    assert Before(schedule, n) == Run(INIT, schedule) by { assert schedule[..n] == schedule; }
    if SetAt(all, i) {
      forall j | i < j < n && Takes(schedule, j) ensures !FindsNothing(Before(schedule, j), schedule[j]) {
        assert Takes(all, j);
      }
      if Can(Run(INIT, schedule), a) { assert Takes(all, n); }
    }
  }

  /** The event is set exactly if an arrival or a close came after the last receive that looked in vain. */
  lemma {:induction false} EventIffSetSince(schedule: seq<Action>)
    ensures Run(INIT, schedule).event <==> exists i :: 0 <= i < |schedule| && SetAt(schedule, i)
    decreases |schedule|
  {
    if |schedule| > 0 {
      var n := |schedule| - 1;
      var front, a := schedule[..n], schedule[n];
      assert schedule == front + [a];
      EventIffSetSince(front);
      RunSnoc(INIT, front, a);
      forall i | 0 <= i < n
        ensures SetAt(schedule, i) <==>
                  SetAt(front, i) && (Can(Run(INIT, front), a) ==> !FindsNothing(Run(INIT, front), a))
      {
        SetAtFront(front, a, i);
      }
      assert SetAt(schedule, n) <==> Can(Run(INIT, front), a) && Sets(a);
    }
  }

  /**
   A new call for a chunk that is there returns at once exactly if an arrival or a close came after the last
   receive that looked in vain.
   */
  lemma ReadyButBlocked(schedule: seq<Action>, c: nat)
    requires var st := Run(INIT, schedule); Ready(st, c) && (st.num == 0 || c < st.num)
    ensures var st := Run(INIT, schedule);
            Next(st, Receive(c)).calls[|st.calls|].pc ==
            if exists i :: 0 <= i < |schedule| && SetAt(schedule, i) then Got else Suspended(true)
  {
    EventIffSetSince(schedule);
  }

  /** ... which happens: one chunk arrives, a call for the next one clears the event. */
  lemma ReadyButBlockedExample()
    ensures var st := Run(INIT, [PrepareNow(0, 2), Receive(1), Receive(0)]);
            |st.calls| == 2 && Ready(st, 0) && st.calls[1] == Call(0, Suspended(true))
  {
    var a, b, c := PrepareNow(0, 2), Receive(1), Receive(0);
    var s1 := Next(INIT, a);
    var s2 := Next(s1, b);
    assert [a, b, c][1..] == [b, c] && [b, c][1..] == [c] && [c][1..] == [];
    assert Run(INIT, [a, b, c]) == Run(s1, [b, c]) == Run(s2, [c]) == Next(s2, c);
  }

  /**
   A close ends the wait of a call exactly if the number of chunks that it declares is not zero and not above
   the call's: the call can run, whatever happens before it does, and then comes to the end of the stream.
   A negative number ends every wait. The one exception is -1, which a later chunk's number replaces.
   */
  lemma {:induction false} CloseEndsWaitIff(schedule: seq<Action>, n: int, more: seq<Action>, k: nat)
    requires var st := Run(INIT, schedule); k < |st.calls| && (st.calls[k].pc.Suspended? || st.calls[k].pc.Woken?)
    requires Resume(k) !in more && forall a :: a in more ==> !a.Close?
    ensures var st := Next(Run(INIT, schedule), Close(n));
            var t, m := Run(st, more), if n == -1 then FirstTold(st, more) else n;
            && Can(t, Resume(k)) && t.calls[k].chunk == Run(INIT, schedule).calls[k].chunk
            && (Next(t, Resume(k)).calls[k].pc.EndOfStream? <==> EndsAt(m, t.calls[k].chunk))
            && (!EndsAt(m, t.calls[k].chunk) ==>
                  Next(t, Resume(k)).calls[k].pc == if Ready(t, t.calls[k].chunk) then Got else Suspended(false))
  {
    var st := Next(Run(INIT, schedule), Close(n));
    WokenStays(st, more, k);
    if n == -1 { PlaceholderStays(st, more); } else { NumberStays(st, more); }
  }

  /** The first number other than -1 that comes with a chunk, if there is one. */
  function FirstTold(st: State, more: seq<Action>): int
    decreases |more|
  {
    if |more| == 0 then -1
    else if !Can(st, more[0]) then FirstTold(st, more[1..])
    else if (more[0].PrepareTensor? || more[0].PrepareNow?) && more[0].n != -1 then more[0].n
    else FirstTold(Next(st, more[0]), more[1..])
  }

  lemma {:induction false} PlaceholderStays(st: State, more: seq<Action>)
    requires st.present && st.num == -1 && forall a :: a in more ==> !a.Close?
    ensures Run(st, more).num == FirstTold(st, more)
    decreases |more|
  {
    if |more| > 0 {
      assert more[0] in more && forall a :: a in more[1..] ==> a in more;
      var t := if Can(st, more[0]) then Next(st, more[0]) else st;
      if t.num == -1 { PlaceholderStays(t, more[1..]); } else { NumberStays(t, more[1..]); }
    }
  }

  /** A number of chunks that has been told is only changed by another close. */
  lemma {:induction false} NumberStays(st: State, more: seq<Action>)
    requires st.present && st.num != -1 && forall a :: a in more ==> !a.Close?
    ensures Run(st, more).present && Run(st, more).num == st.num
    decreases |more|
  {
    if |more| > 0 {
      assert more[0] in more && forall a :: a in more[1..] ==> a in more;
      NumberStays(if Can(st, more[0]) then Next(st, more[0]) else st, more[1..]);
    }
  }

  /** So a close with a negative number other than -1, which nothing refuses, ends every wait. */
  lemma NegativeEndsAll(schedule: seq<Action>, n: int, more: seq<Action>, k: nat)
    requires n < -1
    requires var st := Run(INIT, schedule); k < |st.calls| && (st.calls[k].pc.Suspended? || st.calls[k].pc.Woken?)
    requires Resume(k) !in more && forall a :: a in more ==> !a.Close?
    ensures var t := Run(Next(Run(INIT, schedule), Close(n)), more);
            Can(t, Resume(k)) && Next(t, Resume(k)).calls[k].pc.EndOfStream?
  {
    CloseEndsWaitIff(schedule, n, more, k);
  }

  /** In particular closing a stream with zero chunks ends nobody's wait: zero stands for an unknown number. */
  lemma {:induction false} EmptyStreamHasNoEnd(schedule: seq<Action>, more: seq<Action>, k: nat)
    requires var st := Run(INIT, schedule); k < |st.calls| && (st.calls[k].pc.Suspended? || st.calls[k].pc.Woken?)
    requires Resume(k) !in more && forall a :: a in more ==> !a.Close?
    ensures var t := Run(Next(Run(INIT, schedule), Close(0)), more);
            Can(t, Resume(k)) && (Next(t, Resume(k)).calls[k].pc == if Ready(t, t.calls[k].chunk) then Got
                else Suspended(false))
  {
    CloseEndsWaitIff(schedule, 0, more, k);
  }

  /** While nobody declares another number of chunks than zero, no receive ever comes to the end of the stream. */
  lemma {:induction false} ZeroNeverEnds(schedule: seq<Action>, k: nat)
    requires forall a :: a in schedule ==> DeclaresNothing(a)
    requires k < |Run(INIT, schedule).calls|
    ensures !Run(INIT, schedule).calls[k].pc.EndOfStream?
  {
    DeclaredOnlyZero(INIT, schedule);
    ReturnsAreRight(schedule, k);
  }

  predicate DeclaresNothing(a: Action) {
    match a
    case PrepareTensor(_, n) => n == 0
    case PrepareNow(_, n) => n == 0
    case Close(n) => n == 0
    case _ => true
  }

  lemma {:induction false} DeclaredOnlyZero(st: State, schedule: seq<Action>)
    requires st.declared <= {0} && forall a :: a in schedule ==> DeclaresNothing(a)
    ensures Run(st, schedule).declared <= {0}
    decreases |schedule|
  {
    if |schedule| > 0 {
      assert schedule[0] in schedule && forall a :: a in schedule[1..] ==> a in schedule;
      DeclaredOnlyZero(if Can(st, schedule[0]) then Next(st, schedule[0]) else st, schedule[1..]);
    }
  }

  // ---- the handlers ----

  /** What one pass of `receive`'s loop comes to. */
  datatype Outcome = Chunk | End | Waits

  /** One entry of the ledger with its event; `calls` are the receives of this request. */
  class Request {
    var present: bool
    var numChunks: int
    var chunks: map<nat, Chunk>
    var event: bool
    ghost var calls: seq<Call>
    ghost var declared: set<int>

    ghost function Now(): State
      reads this
    {
      State(present, numChunks, chunks, event, calls, declared)
    }

    constructor ()
      ensures Now() == INIT && Inv(Now())
    {
      present, numChunks, chunks, event, calls, declared := false, -1, map[], false, [], {};
    }

    /** done_event.set() */
    method SetEvent()
      modifies this`event, this`calls
      ensures Now() == Set(old(Now()))
    {
      event := true;
      calls := WakeAll(calls);
    }

    method PutChunk(c: nat, chunk: Chunk, n: int)
      modifies this`present, this`numChunks, this`chunks, this`declared
      ensures Now() == WithChunk(old(Now()), c, chunk, n)
    {
      if present {
        chunks := chunks[c := chunk];
        if numChunks == -1 {
          numChunks := n;
        }
      } else {
        present, numChunks := true, n;
        chunks := chunks[c := chunk];
      }
      declared := declared + {n};
    }

    /** prepare_receive of a tensor from another node, once its buffer is allocated. */
    method PrepareTensorChunk(c: nat, n: int)
      requires Inv(Now()) && Can(Now(), PrepareTensor(c, n))
      modifies this
      ensures Inv(Now()) && Now() == Next(old(Now()), PrepareTensor(c, n))
    {
      NextKeeps(Now(), PrepareTensor(c, n));
      PutChunk(c, Tensor(false), n);
    }

    /** prepare_receive of an object, or of a tensor on the same node. */
    method PrepareReadyChunk(c: nat, n: int)
      requires Inv(Now()) && Can(Now(), PrepareNow(c, n))
      modifies this
      ensures Inv(Now()) && Now() == Next(old(Now()), PrepareNow(c, n))
    {
      NextKeeps(Now(), PrepareNow(c, n));
      PutChunk(c, Obj, n);
      SetEvent();
    }

    /** The end of the last recv_task. */
    method ChunkLanded(c: nat)
      requires Inv(Now()) && Can(Now(), Landed(c))
      modifies this
      ensures Inv(Now()) && Now() == Next(old(Now()), Landed(c))
      ensures event && Ready(Now(), c) && forall k :: 0 <= k < |calls| ==> !calls[k].pc.Suspended?
    {
      NextKeeps(Now(), Landed(c));
      chunks := chunks[c := Tensor(true)];
      SetEvent();
    }

    /** close_stream */
    method CloseStream(n: int)
      requires Inv(Now())
      modifies this
      ensures Inv(Now()) && Now() == Next(old(Now()), Close(n))
    {
      NextKeeps(Now(), Close(n));
      present, numChunks := true, n;
      declared := declared + {n};
      SetEvent();
    }

    /** The start of `receive`, which does not suspend when the event is set. */
    method Enter(c: nat) returns (o: Outcome)
      requires Inv(Now())
      modifies this
      ensures Inv(Now()) && Now() == Next(old(Now()), Receive(c))
      ensures o == OutcomeOf(calls[|old(calls)|].pc)
    {
      NextKeeps(Now(), Receive(c));
      if !present {
        present := true;
      }
      calls := calls + [Call(c, Suspended(Ready(Now(), c)))];
      if event {
        o := Attempt(c, |calls| - 1);
      } else {
        o := Waits;
      }
    }

    /** One pass of the loop of `receive` after the wait. */
    method Attempt(c: nat, ghost k: nat) returns (o: Outcome)
      requires k < |calls| && calls[k].chunk == c
      modifies this`event, this`calls
      ensures Now() == Check(old(Now()), k) && o == OutcomeOf(calls[k].pc)
    {
      if numChunks != 0 && c >= numChunks {
        calls := calls[k := calls[k].(pc := EndOfStream(numChunks))];
        return End;
      }
      if c !in chunks || (chunks[c].Tensor? && !chunks[c].done) {
        event := false;
        calls := calls[k := calls[k].(pc := Suspended(false))];
        return Waits;
      }
      calls := calls[k := calls[k].(pc := Got)];
      return Outcome.Chunk;
    }
  }

  ghost function OutcomeOf(pc: Pc): Outcome {
    match pc
    case Got => Outcome.Chunk
    case EndOfStream(_) => End
    case _ => Waits
  }
}
