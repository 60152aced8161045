/** What the broadcast ring promises over whole runs. */
module ShmBroadcastTheorems {
  import opened ShmBroadcast

  lemma {:induction false} RunKeeps<T(!new)>(c: Config<T>, s: State<T>, actions: seq<Action<T>>)
    requires Inv(c, s)
    ensures Inv(c, Run(c, s, actions))
    decreases |actions|
  {
    if actions != [] {
      NextKeeps(c, s, actions[0]);
      RunKeeps(c, Next(c, s, actions[0]), actions[1..]);
    }
  }

  /**
   In every interleaving, each reader has dequeued a prefix of the published messages: nothing is
   lost, duplicated, reordered or torn, oversized or not.
  */
  lemma BroadcastIsPrefix<T(!new)>(c: Config<T>, s: State<T>, actions: seq<Action<T>>, i: nat)
    requires Init(c, s) && i < c.readers
    ensures var t := Run(c, s, actions);
            && t.readers[i].got <= t.writer.sent
            && Written(t) - c.chunks <= Read(t, i) <= Written(t)
            && (Readable(c, t, i) <==> Read(t, i) < Written(t))
            && (Writable(c, t) <==> forall k :: 0 <= k < c.readers ==> Read(t, k) > Written(t) - c.chunks)
  {
    InitInv(c, s);
    RunKeeps(c, s, actions);
    var t := Run(c, s, actions);
    assert Delivered(c, t.readers[i], t.writer.sent);
    ReadableIffBehind(c, t, i);
    WritableIffDrained(c, t);
  }

  // ---- published messages are the enqueued ones ----

  function InFlight<T>(pc: WriterPc<T>): seq<T> {
    if pc.Idle? || pc.Send? then [] else [pc.m]
  }

  /** The writer's test is due and fails: a timeout is raised here, or else the writer polls again. */
  ghost predicate ScansAgain<T(!new)>(c: Config<T>, s: State<T>)
    requires Shape(c, s)
  {
    s.writer.pc.Scan? && s.writer.pc.i == c.readers + 1 && WriterStep(c, s).writer.pc.Scan?
  }

  /** Messages of the enqueue calls that a run starts, without those that time out. */
  ghost function Enqueued<T(!new)>(c: Config<T>, s: State<T>, actions: seq<Action<T>>, sofar: seq<T>): seq<T>
    requires Shape(c, s)
    decreases |actions|
  {
    if actions == [] then sofar else Enqueued(c, Next(c, s, actions[0]), actions[1..], Entered(c, s, actions[0], sofar))
  }

  ghost function Entered<T(!new)>(c: Config<T>, s: State<T>, a: Action<T>, sofar: seq<T>): seq<T>
    requires Shape(c, s)
  {
    if a.Enqueue? && s.writer.pc.Idle? then sofar + [a.m]
    else if a.WriterTimeout? && ScansAgain(c, s) && sofar != [] then sofar[..|sofar| - 1]
    else sofar
  }

  lemma {:induction false} PublishedIsEnqueued<T(!new)>(c: Config<T>, s: State<T>, actions: seq<Action<T>>,
          sofar: seq<T>)
    requires Shape(c, s) && sofar == s.writer.sent + InFlight(s.writer.pc)
    ensures var t := Run(c, s, actions);
            Enqueued(c, s, actions, sofar) == t.writer.sent + InFlight(t.writer.pc)
    decreases |actions|
  {
    if actions != [] {
      EnteredStep(c, s, actions[0], sofar);
      PublishedIsEnqueued(c, Next(c, s, actions[0]), actions[1..], Entered(c, s, actions[0], sofar));
    }
  }

  lemma EnteredStep<T(!new)>(c: Config<T>, s: State<T>, a: Action<T>, sofar: seq<T>)
    requires Shape(c, s) && sofar == s.writer.sent + InFlight(s.writer.pc)
    ensures var t := Next(c, s, a); Entered(c, s, a, sofar) == t.writer.sent + InFlight(t.writer.pc)
  {
    var t := Next(c, s, a);
    if a.WriterTimeout? && ScansAgain(c, s) {
      assert sofar[..|sofar| - 1] == s.writer.sent;
    }
  }

  // ---- returned messages are the ones asked for ----

  /** The reader's test is due and fails: a timeout is raised here, or else the reader polls again. */
  ghost predicate PollsAgain<T(!new)>(c: Config<T>, s: State<T>, i: nat)
    requires Shape(c, s) && i < c.readers
  {
    s.readers[i].pc.PollWritten? && ReaderStep(c, s, i).readers[i].pc.PollRead?
  }

  /** The dequeue calls of reader `i` that a run starts, less those that time out. */
  ghost function Asked<T(!new)>(c: Config<T>, s: State<T>, actions: seq<Action<T>>, i: nat): int
    requires Shape(c, s) && i < c.readers
    decreases |actions|
  {
    if actions == [] then 0 else Asks(c, s, actions[0], i) + Asked(c, Next(c, s, actions[0]), actions[1..], i)
  }

  ghost function Asks<T(!new)>(c: Config<T>, s: State<T>, a: Action<T>, i: nat): int
    requires Shape(c, s) && i < c.readers
  {
    if a == Dequeue(i) && s.readers[i].pc.Rest? then 1
    else if a == ReaderTimeout(i) && PollsAgain(c, s, i) then -1
    else 0
  }

  /** A reader's calls that have returned a message, and the one that is under way. */
  function Calls<T>(r: Reader<T>): nat { |r.got| + if r.pc.Rest? then 0 else 1 }

  /** Every call that does not time out returns one message or is still under way. */
  lemma {:induction false} CallsAreAsked<T(!new)>(c: Config<T>, s: State<T>, actions: seq<Action<T>>, i: nat)
    requires Shape(c, s) && i < c.readers
    ensures Calls(Run(c, s, actions).readers[i]) == Calls(s.readers[i]) + Asked(c, s, actions, i)
    decreases |actions|
  {
    if actions != [] {
      AskedStep(c, s, actions[0], i);
      CallsAreAsked(c, Next(c, s, actions[0]), actions[1..], i);
    }
  }

  /** A step of a call does not end it without a message. */
  lemma StepCalls<T(!new)>(c: Config<T>, s: State<T>, j: nat, i: nat)
    requires Shape(c, s) && j < c.readers && i < c.readers
    ensures Calls(ReaderStep(c, s, j).readers[i]) == Calls(s.readers[i])
  {
    if j != i { assert ReaderStep(c, s, j).readers[i] == s.readers[i]; }
  }

  lemma AskedStep<T(!new)>(c: Config<T>, s: State<T>, a: Action<T>, i: nat)
    requires Shape(c, s) && i < c.readers
    ensures Calls(Next(c, s, a).readers[i]) == Calls(s.readers[i]) + Asks(c, s, a, i)
  {
    match a
    case ReaderAct(j) => if j < c.readers { StepCalls(c, s, j, i); }
    case _ =>
  }

  // ---- exclusion ----

  /** The writer is never inside a chunk that a reader is inside. */
  lemma NeverInSameChunk<T(!new)>(c: Config<T>, s: State<T>, actions: seq<Action<T>>, i: nat)
    requires Init(c, s) && i < c.readers
    ensures var t := Run(c, s, actions);
            Clearing(t.writer.pc) && (t.readers[i].pc.Load? || t.readers[i].pc.Mark?) ==>
                t.readers[i].idx != t.writer.idx
  {
    InitInv(c, s);
    RunKeeps(c, s, actions);
    var t := Run(c, s, actions);
    assert ReaderInv(c, t, i);
    if Clearing(t.writer.pc) { ReaderApart(c, t, i); }
  }

  /**
   What a reader has yet to receive from the socket, counting a message that is just being sent, are
   exactly the oversized ones among the messages that it has not returned: never more than `chunks + 1`.
   */
  lemma SocketBacklog<T(!new)>(c: Config<T>, s: State<T>, actions: seq<Action<T>>, i: nat)
    requires Init(c, s) && i < c.readers
    ensures var t := Run(c, s, actions);
            var r, all := t.readers[i], t.socket + if t.writer.pc.Send? then [c.dumps(t.writer.pc.m)] else [];
            && r.got <= t.writer.sent && r.received <= |all|
            && all[r.received..] == Oversized(c, t.writer.sent[|r.got|..])
            && |t.socket| - r.received <= c.chunks + 1
  {
    InitInv(c, s);
    RunKeeps(c, s, actions);
    var t := Run(c, s, actions);
    var got, sent := t.readers[i].got, t.writer.sent;
    assert Delivered(c, t.readers[i], sent);
    assert got == sent[..|got|];
    OversizedPrefix(c, sent, |got|);
    assert sent == got + sent[|got|..];
    OversizedAppend(c, got, sent[|got|..]);
    SocketCarries(c, t.writer.pc, sent, t.socket);
  }

  /** Only messages that do not fit into a chunk beside its first byte go over the socket. */
  lemma SocketHasMisfits<T(!new)>(c: Config<T>, s: State<T>, actions: seq<Action<T>>)
    requires Init(c, s)
    ensures var t := Run(c, s, actions);
            forall k :: 0 <= k < |t.socket| ==> 1 + |t.socket[k]| > c.bytes
  {
    InitInv(c, s);
    RunKeeps(c, s, actions);
    var t := Run(c, s, actions);
    DoNotFit(c, if t.writer.pc.Send? then t.writer.sent[..|t.writer.sent| - 1] else t.writer.sent);
  }

  lemma {:induction false} DoNotFit<T(!new)>(c: Config<T>, sent: seq<T>)
    requires c.Ok()
    ensures forall k :: 0 <= k < |Oversized(c, sent)| ==> 1 + |Oversized(c, sent)[k]| > c.bytes
  {
    if sent != [] { DoNotFit(c, sent[..|sent| - 1]); }
  }

  lemma SocketCarries<T(!new)>(c: Config<T>, pc: WriterPc<T>, sent: seq<T>, socket: seq<seq<Byte>>)
    requires c.Ok() && SocketOk(c, pc, sent, socket)
    ensures socket + (if pc.Send? then [c.dumps(pc.m)] else []) == Oversized(c, sent)
  {
    if pc.Send? {
      var n := |sent| - 1;
      assert sent == sent[..n] + [sent[n]];
      OversizedGrows(c, sent[..n], sent[n]);
    }
  }

  // ---- progress ----

  ghost predicate WriterBlocked<T(!new)>(c: Config<T>, s: State<T>)
    requires Shape(c, s)
  {
    s.writer.pc.Scan? && !Writable(c, s)
  }

  ghost predicate ReaderBlocked<T(!new)>(c: Config<T>, s: State<T>, i: nat)
    requires Shape(c, s) && i < c.readers
  {
    var pc := s.readers[i].pc;
    if pc.Recv? then s.readers[i].received >= |s.socket|
    else (pc.PollRead? || pc.PollWritten?) && !Readable(c, s, i)
  }

  /**
   A reader is blocked only when it has everything, or waits for the socket message that the writer is just
   sending.
   */
  lemma BlockedReaderHasAll<T(!new)>(c: Config<T>, s: State<T>, i: nat)
    requires Inv(c, s) && i < c.readers && ReaderBlocked(c, s, i)
    ensures var r := s.readers[i];
            || r.got == s.writer.sent
            || (r.pc.Recv? && s.writer.pc.Send? && r.got + [s.writer.pc.m] == s.writer.sent)
  {
    if s.readers[i].pc.Recv? {
      SocketPairs(c, s, i);
      OnlyLastIsMissing(c, s, i);
    } else {
      ReadableIffBehind(c, s, i);
      assert Delivered(c, s.readers[i], s.writer.sent);
    }
  }

  lemma OnlyLastIsMissing<T(!new)>(c: Config<T>, s: State<T>, i: nat)
    requires Inv(c, s) && i < c.readers && s.writer.pc.Send? && |s.readers[i].got| < Written(s)
    requires s.readers[i].received >= |s.socket| && s.readers[i].pc.Recv?
    ensures s.readers[i].got + [s.writer.pc.m] == s.writer.sent
  {
    var got, sent := s.readers[i].got, s.writer.sent;
    var n := |sent| - 1;
    assert Delivered(c, s.readers[i], sent) && ReaderInv(c, s, i);
    assert got == sent[..|got|] && s.socket == Oversized(c, sent[..n]);
    if |got| < n {
      assert sent[..n][..|got|] == got && sent[..n][|got|] == sent[|got|];
      OversizedAt(c, sent[..n], |got|);
      assert false;
    }
  }

  /** A blocked writer waits for a reader that is not blocked. */
  lemma NoDeadlock<T(!new)>(c: Config<T>, s: State<T>, actions: seq<Action<T>>)
    requires Init(c, s)
    ensures var t := Run(c, s, actions);
            WriterBlocked(c, t) ==> exists i :: 0 <= i < c.readers && Read(t, i) < Written(t) && !ReaderBlocked(c, t, i)
  {
    InitInv(c, s);
    RunKeeps(c, s, actions);
    var t := Run(c, s, actions);
    if WriterBlocked(c, t) {
      WritableIffDrained(c, t);
      var i :| 0 <= i < c.readers && Read(t, i) <= Written(t) - c.chunks;
      if ReaderBlocked(c, t, i) { BlockedReaderHasAll(c, t, i); }
    }
  }

  /** Steps that the writer still has to take in its current call when it is not blocked. */
  ghost function WriterWork<T(!new)>(c: Config<T>, s: State<T>): nat
    requires Shape(c, s)
  {
    match s.writer.pc
    case Idle => 0
    case Send(_) => 1
    case Publish(_) => 2
    case Reset(_, i) => 3 + c.readers - i
    case Fill(m, k) => 2 + c.readers + |c.Frame(m)| - k
    case Clear(m) => 3 + c.readers + |c.Frame(m)|
    case Scan(m, i, sum) =>
      // a scan that has seen a flag at 0 is repeated once
      var rest := 4 + c.readers + |c.Frame(m)| + c.readers + 1 - i;
      if s.meta[s.writer.idx][0] == 0 || sum == i - 1 then rest else rest + c.readers + 1
  }

  ghost function ReaderWork<T(!new)>(c: Config<T>, r: Reader<T>): nat
    requires r.pc.Load? ==> |r.pc.acc| <= c.bytes
  {
    match r.pc
    case Rest => 0
    case Recv => 1
    case Mark(_) => 2
    case Load(acc) => 2 + c.bytes - |acc|
    case PollWritten(read) => if read == 0 then 3 + c.bytes else 5 + c.bytes
    case PollRead => 4 + c.bytes
  }

  lemma WriterAdvances<T(!new)>(c: Config<T>, s: State<T>)
    requires Inv(c, s) && !s.writer.pc.Idle? && !WriterBlocked(c, s)
    ensures WriterWork(c, WriterStep(c, s)) < WriterWork(c, s)
  {
  }

  lemma ReaderAdvances<T(!new)>(c: Config<T>, s: State<T>, i: nat)
    requires Inv(c, s) && i < c.readers && !s.readers[i].pc.Rest? && !ReaderBlocked(c, s, i)
    ensures ReaderWork(c, ReaderStep(c, s, i).readers[i]) < ReaderWork(c, s.readers[i])
  {
    assert ReaderInv(c, s, i);
  }

  ghost function ReadersWork<T(!new)>(c: Config<T>, readers: seq<Reader<T>>): nat
    requires forall i :: 0 <= i < |readers| && readers[i].pc.Load? ==> |readers[i].pc.acc| < c.bytes
  {
    if readers == [] then 0 else ReaderWork(c, readers[0]) + ReadersWork(c, readers[1..])
  }

  lemma {:induction false} ReadersWorkUpdate<T(!new)>(c: Config<T>, readers: seq<Reader<T>>, i: nat, r: Reader<T>)
    requires forall k :: 0 <= k < |readers| && readers[k].pc.Load? ==> |readers[k].pc.acc| < c.bytes
    requires i < |readers| && (r.pc.Load? ==> |r.pc.acc| < c.bytes)
    ensures ReadersWork(c, readers[i := r]) == ReadersWork(c, readers) - ReaderWork(c, readers[i]) + ReaderWork(c, r)
  {
    if i > 0 {
      ReadersWorkUpdate(c, readers[1..], i - 1, r);
      assert readers[i := r][1..] == readers[1..][i - 1 := r];
    } else {
      assert readers[i := r][1..] == readers[1..];
    }
  }

  ghost function TotalWork<T(!new)>(c: Config<T>, s: State<T>): nat
    requires Shape(c, s)
  {
    WriterWork(c, s) + ReadersWork(c, s.readers)
  }

  /** A step of a call that is under way, taken by a process that is not blocked. */
  ghost predicate Effective<T(!new)>(c: Config<T>, s: State<T>, a: Action<T>)
    requires Shape(c, s)
  {
    match a
    case WriterAct => !s.writer.pc.Idle? && !WriterBlocked(c, s)
    case ReaderAct(i) => i < c.readers && !s.readers[i].pc.Rest? && !ReaderBlocked(c, s, i)
    case _ => false
  }

  lemma WriterWorkIsLocal<T(!new)>(c: Config<T>, s: State<T>, i: nat)
    requires Shape(c, s) && i < c.readers
    ensures WriterWork(c, ReaderStep(c, s, i)) == WriterWork(c, s)
    ensures ReaderStep(c, s, i).readers == s.readers[i := ReaderStep(c, s, i).readers[i]]
  {
    var t := ReaderStep(c, s, i);
    assert t.writer == s.writer;
    assert t.meta[t.writer.idx][0] == s.meta[s.writer.idx][0];
  }

  lemma EffectiveAdvances<T(!new)>(c: Config<T>, s: State<T>, a: Action<T>)
    requires Inv(c, s) && Effective(c, s, a)
    ensures TotalWork(c, Next(c, s, a)) < TotalWork(c, s)
  {
    match a
    case WriterAct => WriterAdvances(c, s);
    case ReaderAct(i) =>
      ReaderAdvances(c, s, i);
      WriterWorkIsLocal(c, s, i);
      ReadersWorkUpdate(c, s.readers, i, ReaderStep(c, s, i).readers[i]);
  }

  ghost predicate AllEffective<T(!new)>(c: Config<T>, s: State<T>, actions: seq<Action<T>>)
    requires Shape(c, s)
    decreases |actions|
  {
    actions == [] || (Effective(c, s, actions[0]) && AllEffective(c, Next(c, s, actions[0]), actions[1..]))
  }

  /** Calls that are under way finish within a bounded number of steps of processes that are not blocked. */
  lemma {:induction false} EffectiveRunsEnd<T(!new)>(c: Config<T>, s: State<T>, actions: seq<Action<T>>)
    requires Inv(c, s) && AllEffective(c, s, actions)
    ensures |actions| <= TotalWork(c, s)
    decreases |actions|
  {
    if actions != [] {
      NextKeeps(c, s, actions[0]);
      EffectiveAdvances(c, s, actions[0]);
      EffectiveRunsEnd(c, Next(c, s, actions[0]), actions[1..]);
    }
  }

  /** At rest a reader whose call is under way has everything. */
  lemma RestsOrHasAll<T(!new)>(c: Config<T>, s: State<T>, i: nat)
    requires Inv(c, s) && i < c.readers && forall a :: !Effective(c, s, a)
    ensures s.readers[i].pc.Rest? || s.readers[i].got == s.writer.sent
    ensures s.readers[i].got <= s.writer.sent
  {
    assert !Effective(c, s, WriterAct);
    assert !Effective(c, s, ReaderAct(i));
    assert Delivered(c, s.readers[i], s.writer.sent);
    if !s.readers[i].pc.Rest? { BlockedReaderHasAll(c, s, i); }
  }

  /** At rest an enqueue that has not returned waits for a reader whose calls have ended. */
  lemma IdleOrWaits<T(!new)>(c: Config<T>, s: State<T>)
    requires Inv(c, s) && forall a :: !Effective(c, s, a)
    ensures || s.writer.pc.Idle?
            || (s.writer.pc.Scan? && exists k :: 0 <= k < c.readers && s.readers[k].pc.Rest?
                                                && |s.readers[k].got| <= Written(s) - c.chunks)
  {
    assert !Effective(c, s, WriterAct);
    if s.writer.pc.Scan? {
      WritableIffDrained(c, s);
      var k :| 0 <= k < c.readers && Read(s, k) <= Written(s) - c.chunks;
      RestsOrHasAll(c, s, k);
    }
  }

  /**
   Where such a run ends, a reader with `n` calls that have not timed out has returned the first `n` messages,
   or all of them; its calls have all returned unless it has every message.
  */
  lemma QuiescentAnswersAll<T(!new)>(c: Config<T>, s: State<T>, actions: seq<Action<T>>, i: nat)
    requires Init(c, s) && i < c.readers && forall a :: !Effective(c, Run(c, s, actions), a)
    ensures var t, n := Run(c, s, actions), Asked(c, s, actions, i);
            && n >= 0 && t.readers[i].got == t.writer.sent[..if n <= |t.writer.sent| then n else |t.writer.sent|]
            && (t.readers[i].pc.Rest? <==> n <= |t.writer.sent|)
  {
    InitInv(c, s);
    RunKeeps(c, s, actions);
    CallsAreAsked(c, s, actions, i);
    RestsOrHasAll(c, Run(c, s, actions), i);
  }

  /**
   There the writer has published everything that was enqueued, or all but the last message, for which some
   reader would have to go on: it has stopped calling `chunks` messages ago.
  */
  lemma QuiescentPublishesAll<T(!new)>(c: Config<T>, s: State<T>, actions: seq<Action<T>>)
    requires Init(c, s) && forall a :: !Effective(c, Run(c, s, actions), a)
    ensures var sent, all := Run(c, s, actions).writer.sent, Enqueued(c, s, actions, []);
            || sent == all
            || (sent < all && |all| == |sent| + 1
                && exists k :: 0 <= k < c.readers && Asked(c, s, actions, k) <= |sent| - c.chunks)
  {
    InitInv(c, s);
    RunKeeps(c, s, actions);
    PublishedIsEnqueued(c, s, actions, []);
    var t := Run(c, s, actions);
    IdleOrWaits(c, t);
    if t.writer.pc.Scan? {
      var k :| 0 <= k < c.readers && t.readers[k].pc.Rest? && |t.readers[k].got| <= Written(t) - c.chunks;
      CallsAreAsked(c, s, actions, k);
    }
  }

  /**
   Where such a run ends while every reader keeps dequeuing, every enqueue has returned and every reader has
   it all.
   */
  lemma QuiescentIsComplete<T(!new)>(c: Config<T>, s: State<T>)
    requires Inv(c, s) && forall a :: !Effective(c, s, a)
    requires forall i :: 0 <= i < c.readers ==> !s.readers[i].pc.Rest?
    ensures s.writer.pc.Idle?
    ensures forall i :: 0 <= i < c.readers ==> s.readers[i].got == s.writer.sent
  {
    assert !Effective(c, s, WriterAct);
    forall i | 0 <= i < c.readers ensures ReaderBlocked(c, s, i) {
      assert !Effective(c, s, ReaderAct(i));
    }
    if s.writer.pc.Scan? {
      WritableIffDrained(c, s);
      var i :| 0 <= i < c.readers && Read(s, i) <= Written(s) - c.chunks;
      BlockedReaderHasAll(c, s, i);
    }
    forall i | 0 <= i < c.readers ensures s.readers[i].got == s.writer.sent {
      BlockedReaderHasAll(c, s, i);
    }
  }
}
