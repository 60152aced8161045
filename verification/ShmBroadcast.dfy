/**
 The broadcast ring of eric's MessageQueue as a state machine: one writer and `readers` readers
 share `chunks` slots. Every step touches at most one shared byte, so a run is an arbitrary
 interleaving of single-byte accesses under sequentially consistent memory. The socket that
 carries oversized messages is a FIFO log with one cursor per reader.
*/
module ShmBroadcast {
  import opened Sequences
  import opened ModArithmetic

  type Byte = b: int | 0 <= b < 256

  /** `dumps` and `loads` stand for pickle, which this model does not look into. */
  datatype Config<!T(!new)> = Config(readers: nat, chunks: nat, bytes: nat, dumps: T -> seq<Byte>,
          loads: seq<Byte> -> T)
  {
    /** What MessageQueue's constructor and pickle provide; `loads` ignores what follows a complete pickle. */
    ghost predicate Ok() {
      && readers > 0 && chunks > 0 && bytes > 0
      && forall m: T, junk: seq<Byte> :: loads(dumps(m) + junk) == m
    }

    predicate Overflow(m: T) { |dumps(m)| >= bytes }

    /** The bytes that the writer puts into a chunk for `m`. */
    function Frame(m: T): (f: seq<Byte>)
      requires bytes > 0
      ensures 0 < |f| <= bytes && f[0] == if Overflow(m) then 1 else 0
    {
      if Overflow(m) then [1] else [0] + dumps(m)
    }

    /** Where an index that starts at 0 stands after `j` advances; see SlotIsMod. */
    function Slot(j: nat): (x: nat)
      requires chunks > 0
      ensures x < chunks
    {
      if j == 0 then 0 else Advance(Slot(j - 1))
    }

    function Advance(x: nat): (y: nat)
      requires x < chunks
      ensures y < chunks
    {
      if x + 1 == chunks then 0 else x + 1
    }
  }

  datatype WriterPc<T> =
    | Idle
    | Scan(m: T, i: nat, sum: nat)  // polling: summing reader flags, then reading the written flag
    | Clear(m: T)                   // about to set the written flag to 0
    | Fill(m: T, k: nat)            // about to write data byte k
    | Reset(m: T, i: nat)           // about to set reader flag i to 0
    | Publish(m: T)                 // about to set the written flag to 1
    | Send(m: T)                    // about to send an oversized message on the socket

  datatype ReaderPc =
    | Rest
    | PollRead                      // about to read its own reader flag
    | PollWritten(read: Byte)       // about to read the written flag
    | Load(acc: seq<Byte>)          // about to read the next data byte
    | Mark(acc: seq<Byte>)          // about to set its own reader flag to 1
    | Recv                          // waiting on the socket

  /** `sent` is the history of published messages. */
  datatype Writer<T> = Writer(pc: WriterPc<T>, idx: nat, sent: seq<T>)

  /** `got` is the history of dequeued messages, `received` the socket cursor. */
  datatype Reader<T> = Reader(pc: ReaderPc, idx: nat, received: nat, got: seq<T>)

  datatype State<T> = State(meta: seq<seq<Byte>>, data: seq<seq<Byte>>, socket: seq<seq<Byte>>,
                            writer: Writer<T>, readers: seq<Reader<T>>)

  /** What may happen next; an action that is not enabled leaves the state as it is. */
  datatype Action<T> = Enqueue(m: T) | WriterAct | WriterTimeout | Dequeue(i: nat) | ReaderAct(i: nat)
          | ReaderTimeout(i: nat)

  ghost predicate Shape<T(!new)>(c: Config<T>, s: State<T>) {
    && c.Ok()
    && |s.meta| == |s.data| == c.chunks && |s.readers| == c.readers
    && (forall x :: 0 <= x < c.chunks ==> |s.meta[x]| == 1 + c.readers)
    && (forall x :: 0 <= x < c.chunks ==> |s.data[x]| == c.bytes)
    && s.writer.idx < c.chunks
    && (forall i :: 0 <= i < c.readers ==> s.readers[i].idx < c.chunks)
    && (s.writer.pc.Scan? ==> 1 <= s.writer.pc.i <= c.readers + 1)
    && (s.writer.pc.Fill? ==> s.writer.pc.k < |c.Frame(s.writer.pc.m)|)
    && (s.writer.pc.Reset? ==> 1 <= s.writer.pc.i <= c.readers)
    && (forall i :: 0 <= i < c.readers && s.readers[i].pc.Load? ==> |s.readers[i].pc.acc| < c.bytes)
    && (forall i :: 0 <= i < c.readers && s.readers[i].pc.Mark? ==> |s.readers[i].pc.acc| > 0)
  }

  ghost predicate Init<T(!new)>(c: Config<T>, s: State<T>) {
    && Shape(c, s)
    && (forall x, y :: 0 <= x < c.chunks && 0 <= y < 1 + c.readers ==> s.meta[x][y] == 0)
    && s.socket == [] && s.writer == Writer(Idle, 0, [])
    && forall i :: 0 <= i < c.readers ==> s.readers[i] == Reader(Rest, 0, 0, [])
  }

  // ---- steps ----

  function Poke(bank: seq<seq<Byte>>, x: nat, y: nat, b: Byte): (r: seq<seq<Byte>>)
    requires x < |bank| && y < |bank[x]|
    ensures |r| == |bank| && forall z :: 0 <= z < |bank| ==> |r[z]| == |bank[z]|
  {
    var row: seq<Byte> := bank[x][y := b];
    bank[x := row]
  }

  ghost function WithWriter<T>(s: State<T>, pc: WriterPc<T>): State<T> {
    s.(writer := s.writer.(pc := pc))
  }

  /** The writer's test in acquire_write, on what it has read. */
  predicate Unwritable(readers: nat, written: Byte, sum: nat) {
    written != 0 && sum != readers
  }

  ghost function WriterStep<T(!new)>(c: Config<T>, s: State<T>): (t: State<T>)
    requires Shape(c, s)
    ensures Shape(c, t)
  {
    var x := s.writer.idx;
    match s.writer.pc
    case Idle => s
    case Scan(m, i, sum) =>
      if i <= c.readers then WithWriter(s, Scan(m, i + 1, sum + s.meta[x][i]))
      else if Unwritable(c.readers, s.meta[x][0], sum) then WithWriter(s, Scan(m, 1, 0))
      else WithWriter(s, Clear(m))
    case Clear(m) => WithWriter(s, Fill(m, 0)).(meta := Poke(s.meta, x, 0, 0))
    case Fill(m, k) =>
      var pc := if k + 1 == |c.Frame(m)| then Reset(m, 1) else Fill(m, k + 1);
      WithWriter(s, pc).(data := Poke(s.data, x, k, c.Frame(m)[k]))
    case Reset(m, i) =>
      var pc := if i == c.readers then Publish(m) else Reset(m, i + 1);
      WithWriter(s, pc).(meta := Poke(s.meta, x, i, 0))
    case Publish(m) =>
      var pc := if c.Overflow(m) then Send(m) else Idle;
      s.(meta := Poke(s.meta, x, 0, 1), writer := Writer(pc, c.Advance(x), s.writer.sent + [m]))
    case Send(m) => WithWriter(s, Idle).(socket := s.socket + [c.dumps(m)])
  }

  ghost function WithReader<T>(s: State<T>, i: nat, r: Reader<T>): State<T>
    requires i < |s.readers|
  {
    s.(readers := s.readers[i := r])
  }

  ghost function ReaderStep<T(!new)>(c: Config<T>, s: State<T>, i: nat): (t: State<T>)
    requires Shape(c, s) && i < c.readers
    ensures Shape(c, t)
  {
    var r := s.readers[i];
    var x := r.idx;
    match r.pc
    case Rest => s
    case PollRead => WithReader(s, i, r.(pc := PollWritten(s.meta[x][i + 1])))
    case PollWritten(read) =>
      WithReader(s, i, r.(pc := if s.meta[x][0] == 0 || read != 0 then PollRead else Load([])))
    case Load(acc) =>
      var acc' := acc + [s.data[x][|acc|]];
      WithReader(s, i, r.(pc := if acc'[0] == 1 || |acc'| == c.bytes then Mark(acc') else Load(acc')))
    case Mark(acc) =>
      var r' := if acc[0] == 1 then r.(pc := Recv) else r.(pc := Rest, got := r.got + [c.loads(acc[1..])]);
      WithReader(s, i, r'.(idx := c.Advance(x))).(meta := Poke(s.meta, x, i + 1, 1))
    case Recv =>
      if r.received < |s.socket| then
        WithReader(s, i, r.(pc := Rest, received := r.received + 1, got := r.got + [c.loads(s.socket[r.received])]))
      else s
  }

  ghost function Next<T(!new)>(c: Config<T>, s: State<T>, a: Action<T>): (t: State<T>)
    requires Shape(c, s)
    ensures Shape(c, t)
  {
    match a
    case Enqueue(m) => if s.writer.pc.Idle? then WithWriter(s, Scan(m, 1, 0)) else s
    case WriterAct => WriterStep(c, s)
    case WriterTimeout =>
      // TimeoutError is raised where the failed test would otherwise poll again
      var pc := s.writer.pc;
      if pc.Scan? && pc.i == c.readers + 1 && Unwritable(c.readers, s.meta[s.writer.idx][0], pc.sum)
      then WithWriter(s, Idle) else s
    case Dequeue(i) =>
      if i < c.readers && s.readers[i].pc.Rest? then WithReader(s, i, s.readers[i].(pc := PollRead)) else s
    case ReaderAct(i) => if i < c.readers then ReaderStep(c, s, i) else s
    case ReaderTimeout(i) =>
      if i < c.readers && s.readers[i].pc.PollWritten?
          && (s.meta[s.readers[i].idx][0] == 0 || s.readers[i].pc.read != 0)
      then WithReader(s, i, s.readers[i].(pc := Rest)) else s
  }

  ghost function Run<T(!new)>(c: Config<T>, s: State<T>, actions: seq<Action<T>>): (t: State<T>)
    requires Shape(c, s)
    ensures Shape(c, t)
    decreases |actions|
  {
    if actions == [] then s else Run(c, Next(c, s, actions[0]), actions[1..])
  }

  // ---- counters ----

  ghost function Written<T>(s: State<T>): nat { |s.writer.sent| }

  /** Messages that reader `i` has marked as read; an oversized one is marked before it is received. */
  ghost function Read<T>(s: State<T>, i: nat): nat
    requires i < |s.readers|
  {
    |s.readers[i].got| + if s.readers[i].pc.Recv? then 1 else 0
  }

  predicate Clearing(pc: WriterPc) { pc.Fill? || pc.Reset? || pc.Publish? }

  lemma {:induction false} SlotIsMod<T(!new)>(c: Config<T>, j: nat)
    requires c.chunks > 0
    ensures c.Slot(j) == j % c.chunks
  {
    if j == 0 {
      DivModUnique(0, 0, 0, c.chunks);
    } else {
      SlotIsMod(c, j - 1);
      ModNext(j - 1, c.chunks);
      AdvanceIsMod(c, c.Slot(j - 1));
    }
  }

  lemma AdvanceIsMod<T(!new)>(c: Config<T>, x: nat)
    requires x < c.chunks
    ensures c.Advance(x) == (x + 1) % c.chunks
  {
    if x + 1 == c.chunks { DivModUnique(x + 1, 1, 0, c.chunks); } else { DivModUnique(x + 1, 0, x + 1, c.chunks); }
  }

  lemma SlotDistinct<T(!new)>(c: Config<T>, a: nat, b: nat)
    requires c.chunks > 0 && a < b < a + c.chunks
    ensures c.Slot(a) != c.Slot(b)
  {
    SlotIsMod(c, a);
    SlotIsMod(c, b);
    ModDistinct(a, b, c.chunks);
  }

  /** A slot comes round again after one lap. */
  lemma SlotWraps<T(!new)>(c: Config<T>, j: nat)
    requires c.chunks > 0
    ensures c.Slot(j + c.chunks) == c.Slot(j)
  {
    SlotIsMod(c, j);
    SlotIsMod(c, j + c.chunks);
    ModPlus(j, c.chunks);
  }

  lemma SlotFirstLap<T(!new)>(c: Config<T>, j: nat)
    requires j < c.chunks
    ensures c.Slot(j) == j
  {
    SlotIsMod(c, j);
    DivModUnique(j, 0, j, c.chunks);
  }

  lemma SlotSame<T(!new)>(c: Config<T>, a: nat, b: nat)
    requires c.chunks > 0 && c.Slot(a) == c.Slot(b) && a - c.chunks < b < a + c.chunks
    ensures a == b
  {
    if a < b { SlotDistinct(c, a, b); } else if b < a { SlotDistinct(c, b, a); }
  }

  // ---- oversized messages ----

  ghost function Oversized<T(!new)>(c: Config<T>, sent: seq<T>): (r: seq<seq<Byte>>)
    requires c.Ok()
  {
    if sent == [] then []
    else
      var m := sent[|sent| - 1];
      Oversized(c, sent[..|sent| - 1]) + if c.Overflow(m) then [c.dumps(m)] else []
  }

  lemma OversizedGrows<T(!new)>(c: Config<T>, sent: seq<T>, m: T)
    requires c.Ok()
    ensures Oversized(c, sent + [m]) == Oversized(c, sent) + if c.Overflow(m) then [c.dumps(m)] else []
  {
    assert (sent + [m])[..|sent|] == sent;
  }

  /** The k-th overflow flag belongs to the k-th socket message. */
  lemma {:induction false} OversizedAt<T(!new)>(c: Config<T>, sent: seq<T>, j: nat)
    requires c.Ok() && j < |sent| && c.Overflow(sent[j])
    ensures |Oversized(c, sent[..j])| < |Oversized(c, sent)|
    ensures Oversized(c, sent)[|Oversized(c, sent[..j])|] == c.dumps(sent[j])
  {
    var n := |sent| - 1;
    if j < n {
      OversizedAt(c, sent[..n], j);
      assert sent[..n][..j] == sent[..j];
    }
  }

  lemma {:induction false} OversizedAppend<T(!new)>(c: Config<T>, a: seq<T>, b: seq<T>)
    requires c.Ok()
    ensures Oversized(c, a + b) == Oversized(c, a) + Oversized(c, b)
    decreases |b|
  {
    if b == [] {
      assert a + b == a;
    } else {
      var front, m := b[..|b| - 1], b[|b| - 1];
      OversizedAppend(c, a, front);
      Assoc(a, front, [m]);
      assert b == front + [m];
      OversizedGrows(c, a + front, m);
      OversizedGrows(c, front, m);
      Assoc(Oversized(c, a), Oversized(c, front), if c.Overflow(m) then [c.dumps(m)] else []);
    }
  }

  lemma {:induction false} OversizedPrefix<T(!new)>(c: Config<T>, sent: seq<T>, j: nat)
    requires c.Ok() && j <= |sent|
    ensures |Oversized(c, sent[..j])| <= |Oversized(c, sent)| <= |Oversized(c, sent[..j])| + |sent| - j
  {
    if j < |sent| {
      var n := |sent| - 1;
      OversizedPrefix(c, sent[..n], j);
      assert sent[..n][..j] == sent[..j];
    } else {
      assert sent[..j] == sent;
    }
  }

  // ---- invariant ----

  ghost predicate Counters<T(!new)>(c: Config<T>, s: State<T>)
    requires Shape(c, s)
  {
    && s.writer.idx == c.Slot(Written(s))
    && (forall i :: 0 <= i < c.readers ==> s.readers[i].idx == c.Slot(Read(s, i)))
    && (forall i :: 0 <= i < c.readers ==> Written(s) - c.chunks <= Read(s, i) <= Written(s))
    && (s.writer.pc.Clear? || Clearing(s.writer.pc) ==>
          forall i :: 0 <= i < c.readers ==> Written(s) - c.chunks < Read(s, i))
  }

  /** The oldest message whose slot is still intact. */
  ghost function Oldest<T(!new)>(c: Config<T>, s: State<T>): int {
    Written(s) - c.chunks + if Clearing(s.writer.pc) then 1 else 0
  }

  ghost predicate FlagsFor<T(!new)>(c: Config<T>, s: State<T>, j: nat)
    requires Shape(c, s)
  {
    forall i :: 0 <= i < c.readers ==> s.meta[c.Slot(j)][i + 1] == if Read(s, i) > j then 1 else 0
  }

  ghost predicate Holds<T(!new)>(c: Config<T>, s: State<T>, j: nat)
    requires Shape(c, s) && j < Written(s)
  {
    && s.meta[c.Slot(j)][0] == 1
    && FlagsFor(c, s, j)
    && c.Frame(s.writer.sent[j]) <= s.data[c.Slot(j)]
  }

  ghost predicate Slots<T(!new)>(c: Config<T>, s: State<T>)
    requires Shape(c, s)
  {
    && (forall j: nat | Oldest(c, s) <= j < Written(s) :: Holds(c, s, j))
    && (forall x :: Written(s) <= x < c.chunks ==> s.meta[x][0] == 0)
  }

  /** What the writer knows about its own slot: the flag bytes `flags` and the data bytes `chunk`. */
  ghost predicate WriterOk<T(!new)>(c: Config<T>, pc: WriterPc<T>, flags: seq<Byte>, chunk: seq<Byte>)
    requires c.Ok() && |flags| == 1 + c.readers
    requires pc.Scan? ==> 1 <= pc.i <= c.readers + 1
    requires pc.Fill? ==> pc.k < |c.Frame(pc.m)|
    requires pc.Reset? ==> 1 <= pc.i <= c.readers
  {
    match pc
    case Scan(m, i, sum) =>
      // flags only rise while the writer scans, so a full sum means that all are set
      sum <= i - 1 && (sum == i - 1 ==> forall k :: 1 <= k < i ==> flags[k] == 1)
    case Fill(m, k) => flags[0] == 0 && c.Frame(m)[..k] <= chunk
    case Reset(m, i) => flags[0] == 0 && c.Frame(m) <= chunk && forall k :: 1 <= k < i ==> flags[k] == 0
    case Publish(m) => flags[0] == 0 && c.Frame(m) <= chunk && forall k :: 1 <= k <= c.readers ==> flags[k] == 0
    case _ => true
  }

  ghost predicate WriterInv<T(!new)>(c: Config<T>, s: State<T>)
    requires Shape(c, s)
  {
    WriterOk(c, s.writer.pc, s.meta[s.writer.idx], s.data[s.writer.idx])
  }

  ghost predicate FlagBytes<T(!new)>(c: Config<T>, s: State<T>)
    requires Shape(c, s)
  {
    forall x, y :: 0 <= x < c.chunks && 0 <= y < 1 + c.readers ==> s.meta[x][y] <= 1
  }

  /** What reader `i` knows about its slot and about the history. */
  ghost predicate ReaderOk<T(!new)>(c: Config<T>, r: Reader<T>, i: nat, sent: seq<T>, flags: seq<Byte>,
          chunk: seq<Byte>)
    requires c.Ok() && |flags| == 1 + c.readers && i < c.readers
    requires r.pc.Mark? ==> |r.pc.acc| > 0
  {
    match r.pc
    case PollWritten(read) => read == 0 ==> flags[i + 1] == 0
    case Load(acc) => |r.got| < |sent| && acc <= chunk && (acc != [] ==> acc[0] != 1)
    case Mark(acc) => |r.got| < |sent| && acc <= chunk && (if acc[0] == 1 then |acc| == 1 else |acc| == c.bytes)
    case Recv => |r.got| < |sent| && c.Overflow(sent[|r.got|])
    case _ => true
  }

  ghost predicate ReaderInv<T(!new)>(c: Config<T>, s: State<T>, i: nat)
    requires Shape(c, s) && i < c.readers
  {
    ReaderOk(c, s.readers[i], i, s.writer.sent, s.meta[s.readers[i].idx], s.data[s.readers[i].idx])
  }

  /** The socket has carried the oversized messages of the history, except one that is just being sent. */
  ghost predicate SocketOk<T(!new)>(c: Config<T>, pc: WriterPc<T>, sent: seq<T>, socket: seq<seq<Byte>>)
    requires c.Ok()
  {
    if pc.Send?
    then sent != [] && sent[|sent| - 1] == pc.m && c.Overflow(pc.m) && socket == Oversized(c, sent[..|sent| - 1])
    else socket == Oversized(c, sent)
  }

  /** The reader has dequeued a prefix of the history and taken exactly its oversized messages off the socket. */
  ghost predicate Delivered<T(!new)>(c: Config<T>, r: Reader<T>, sent: seq<T>)
    requires c.Ok()
  {
    r.got <= sent && r.received == |Oversized(c, r.got)|
  }

  ghost predicate History<T(!new)>(c: Config<T>, s: State<T>)
    requires Shape(c, s)
  {
    && SocketOk(c, s.writer.pc, s.writer.sent, s.socket)
    && forall i :: 0 <= i < c.readers ==> Delivered(c, s.readers[i], s.writer.sent)
  }

  ghost predicate Inv<T(!new)>(c: Config<T>, s: State<T>) {
    && Shape(c, s)
    && Counters(c, s)
    && Slots(c, s)
    && FlagBytes(c, s)
    && WriterInv(c, s)
    && (forall i :: 0 <= i < c.readers ==> ReaderInv(c, s, i))
    && History(c, s)
  }

  lemma InitInv<T(!new)>(c: Config<T>, s: State<T>)
    requires Init(c, s)
    ensures Inv(c, s)
  {
    assert c.Slot(0) == 0;
    forall i | 0 <= i < c.readers ensures s.readers[i].idx == c.Slot(Read(s, i)) {
      assert s.readers[i] == Reader(Rest, 0, 0, []);
    }
  }

  // ---- what the flags mean ----

  ghost predicate Readable<T(!new)>(c: Config<T>, s: State<T>, i: nat)
    requires Shape(c, s) && i < c.readers
  {
    s.meta[s.readers[i].idx][0] != 0 && s.meta[s.readers[i].idx][i + 1] == 0
  }

  ghost predicate Writable<T(!new)>(c: Config<T>, s: State<T>)
    requires Shape(c, s)
  {
    s.meta[s.writer.idx][0] == 0 || forall y :: 1 <= y <= c.readers ==> s.meta[s.writer.idx][y] == 1
  }

  lemma ReadableIffBehind<T(!new)>(c: Config<T>, s: State<T>, i: nat)
    requires Inv(c, s) && i < c.readers
    ensures Readable(c, s, i) <==> Read(s, i) < Written(s)
  {
    var w, r := Written(s), Read(s, i);
    if r < w {
      assert Holds(c, s, r);
    } else if Clearing(s.writer.pc) {
      assert s.meta[s.readers[i].idx][0] == 0;
    } else if w >= c.chunks {
      var j := w - c.chunks;
      assert Holds(c, s, j);
      SlotWraps(c, j);
      assert s.meta[c.Slot(j)][i + 1] == 1;
    } else {
      SlotFirstLap(c, w);
      assert s.meta[w][0] == 0;
    }
  }

  lemma WritableIffDrained<T(!new)>(c: Config<T>, s: State<T>)
    requires Inv(c, s)
    ensures Writable(c, s) <==> forall i :: 0 <= i < c.readers ==> Read(s, i) > Written(s) - c.chunks
  {
    var w := Written(s);
    if Clearing(s.writer.pc) {
    } else if w >= c.chunks {
      var j := w - c.chunks;
      assert Holds(c, s, j);
      SlotWraps(c, j);
      var flags := s.meta[s.writer.idx];
      forall i | 0 <= i < c.readers ensures flags[i + 1] == 1 <==> Read(s, i) > j {}
      if forall i :: 0 <= i < c.readers ==> Read(s, i) > j {
        forall y | 1 <= y <= c.readers ensures flags[y] == 1 { assert Read(s, y - 1) > j; }
      }
    } else {
      SlotFirstLap(c, w);
      assert s.meta[w][0] == 0;
    }
  }

  // ---- every step keeps the invariant ----

  /** Slots of messages that are still to be read are apart from the writer's. */
  lemma WriterApart<T(!new)>(c: Config<T>, s: State<T>, j: nat)
    requires Inv(c, s) && Written(s) - c.chunks < j < Written(s)
    ensures c.Slot(j) != s.writer.idx
  {
    SlotDistinct(c, j, Written(s));
  }

  lemma ScanKeeps<T(!new)>(c: Config<T>, s: State<T>)
    requires Inv(c, s) && s.writer.pc.Scan?
    ensures Inv(c, WriterStep(c, s))
  {
    var t := WriterStep(c, s);
    SameHolds(c, s, t);
    forall i | 0 <= i < c.readers ensures ReaderInv(c, t, i) {
      assert ReaderInv(c, s, i);
    }
    if t.writer.pc.Clear? {
      assert Writable(c, s);
      WritableIffDrained(c, s);
    }
  }

  /** Steps that leave memory and counters alone leave the slots alone. */
  lemma SameHolds<T(!new)>(c: Config<T>, s: State<T>, t: State<T>)
    requires Inv(c, s) && Shape(c, t)
    requires t.meta == s.meta && t.data == s.data && t.writer.sent == s.writer.sent
    requires forall i :: 0 <= i < c.readers ==> Read(t, i) == Read(s, i)
    requires Clearing(s.writer.pc) <==> Clearing(t.writer.pc)
    ensures Slots(c, t)
  {
    forall j: nat | Oldest(c, t) <= j < Written(t) ensures Holds(c, t, j) {
      assert Holds(c, s, j);
    }
  }

  /** The steps between the choice of a slot and its publication. */
  ghost predicate Writing<T(!new)>(pc: WriterPc<T>) {
    pc.Clear? || pc.Fill? || pc.Reset?
  }

  lemma WritingSlots<T(!new)>(c: Config<T>, s: State<T>)
    requires Inv(c, s) && Writing(s.writer.pc)
    ensures Slots(c, WriterStep(c, s))
  {
    var t := WriterStep(c, s);
    forall j: nat | Oldest(c, t) <= j < Written(t) ensures Holds(c, t, j) {
      assert Holds(c, s, j);
      WriterApart(c, s, j);
    }
  }

  /** While the writer is inside its slot, no reader with something to read is in the same one. */
  lemma ReaderApart<T(!new)>(c: Config<T>, s: State<T>, i: nat)
    requires Inv(c, s) && i < c.readers
    requires s.writer.pc.Clear? || Clearing(s.writer.pc)
    ensures Read(s, i) < Written(s) ==> s.readers[i].idx != s.writer.idx
  {
    if Read(s, i) < Written(s) { WriterApart(c, s, Read(s, i)); }
  }

  lemma WritingReaders<T(!new)>(c: Config<T>, s: State<T>)
    requires Inv(c, s) && Writing(s.writer.pc)
    ensures forall i :: 0 <= i < c.readers ==> ReaderInv(c, WriterStep(c, s), i)
  {
    forall i | 0 <= i < c.readers ensures ReaderInv(c, WriterStep(c, s), i) {
      assert ReaderInv(c, s, i);
      ReaderApart(c, s, i);
    }
  }

  lemma ClearKeeps<T(!new)>(c: Config<T>, s: State<T>)
    requires Inv(c, s) && s.writer.pc.Clear?
    ensures Inv(c, WriterStep(c, s))
  {
    WritingSlots(c, s);
    WritingReaders(c, s);
  }

  lemma FillKeeps<T(!new)>(c: Config<T>, s: State<T>)
    requires Inv(c, s) && s.writer.pc.Fill?
    ensures Inv(c, WriterStep(c, s))
  {
    FillWriter(c, s);
    WritingSlots(c, s);
    WritingReaders(c, s);
  }

  lemma FillWriter<T(!new)>(c: Config<T>, s: State<T>)
    requires Inv(c, s) && s.writer.pc.Fill?
    ensures WriterInv(c, WriterStep(c, s))
  {
    var t := WriterStep(c, s);
    var f, k := c.Frame(s.writer.pc.m), s.writer.pc.k;
    assert f[..k + 1] == f[..k] + [f[k]];
    assert t.data[s.writer.idx][..k + 1] == f[..k + 1];
  }

  lemma ResetKeeps<T(!new)>(c: Config<T>, s: State<T>)
    requires Inv(c, s) && s.writer.pc.Reset?
    ensures Inv(c, WriterStep(c, s))
  {
    WritingSlots(c, s);
    WritingReaders(c, s);
  }

  lemma PublishKeeps<T(!new)>(c: Config<T>, s: State<T>)
    requires Inv(c, s) && s.writer.pc.Publish?
    ensures Inv(c, WriterStep(c, s))
  {
    PublishCounts(c, s);
    PublishSlots(c, s);
    PublishReaders(c, s);
  }

  lemma PublishCounts<T(!new)>(c: Config<T>, s: State<T>)
    requires Inv(c, s) && s.writer.pc.Publish?
    ensures var t := WriterStep(c, s);
            Counters(c, t) && SocketOk(c, t.writer.pc, t.writer.sent, t.socket)
  {
    OversizedGrows(c, s.writer.sent, s.writer.pc.m);
    assert WriterStep(c, s).writer.sent[..Written(s)] == s.writer.sent;
  }

  lemma PublishSlots<T(!new)>(c: Config<T>, s: State<T>)
    requires Inv(c, s) && s.writer.pc.Publish?
    ensures Slots(c, WriterStep(c, s))
  {
    var t := WriterStep(c, s);
    var w := Written(s);
    forall j: nat | Oldest(c, t) <= j < Written(t) ensures Holds(c, t, j) {
      if j < w {
        assert Holds(c, s, j);
        WriterApart(c, s, j);
      } else {
        assert FlagsFor(c, t, j);
      }
    }
    forall x | Written(t) <= x < c.chunks ensures t.meta[x][0] == 0 {
      SlotFirstLap(c, w);
    }
  }

  lemma PublishReaders<T(!new)>(c: Config<T>, s: State<T>)
    requires Inv(c, s) && s.writer.pc.Publish?
    ensures var t := WriterStep(c, s);
            forall i :: 0 <= i < c.readers ==> ReaderInv(c, t, i) && Delivered(c, t.readers[i], t.writer.sent)
  {
    var t := WriterStep(c, s);
    assert t.writer.sent[..Written(s)] == s.writer.sent;
    forall i | 0 <= i < c.readers ensures ReaderInv(c, t, i) && Delivered(c, t.readers[i], t.writer.sent) {
      assert ReaderInv(c, s, i) && Delivered(c, s.readers[i], s.writer.sent);
    }
  }

  lemma SendKeeps<T(!new)>(c: Config<T>, s: State<T>)
    requires Inv(c, s) && s.writer.pc.Send?
    ensures Inv(c, WriterStep(c, s))
  {
    var t := WriterStep(c, s);
    SameHolds(c, s, t);
    var n := |s.writer.sent| - 1;
    OversizedGrows(c, s.writer.sent[..n], s.writer.sent[n]);
    assert s.writer.sent == s.writer.sent[..n] + [s.writer.sent[n]];
    forall i | 0 <= i < c.readers ensures ReaderInv(c, t, i) && Delivered(c, t.readers[i], t.writer.sent) {
      assert ReaderInv(c, s, i) && Delivered(c, s.readers[i], s.writer.sent);
    }
  }

  lemma WriterKeeps<T(!new)>(c: Config<T>, s: State<T>)
    requires Inv(c, s)
    ensures Inv(c, WriterStep(c, s))
  {
    match s.writer.pc
    case Idle =>
    case Scan(_, _, _) => ScanKeeps(c, s);
    case Clear(_) => ClearKeeps(c, s);
    case Fill(_, _) => FillKeeps(c, s);
    case Reset(_, _) => ResetKeeps(c, s);
    case Publish(_) => PublishKeeps(c, s);
    case Send(_) => SendKeeps(c, s);
  }

  /** A reader's step changes at most its own flag in the slot that it reads. */
  lemma ReaderLocalKeeps<T(!new)>(c: Config<T>, s: State<T>, i: nat, r: Reader<T>)
    requires Inv(c, s) && i < c.readers
    requires Shape(c, WithReader(s, i, r)) && r.idx == s.readers[i].idx
    requires Read(WithReader(s, i, r), i) == Read(s, i)
    requires ReaderInv(c, WithReader(s, i, r), i) && Delivered(c, r, s.writer.sent)
    ensures Inv(c, WithReader(s, i, r))
  {
    var t := WithReader(s, i, r);
    assert forall k :: 0 <= k < c.readers ==> Read(t, k) == Read(s, k);
    SameHolds(c, s, t);
    forall k | 0 <= k < c.readers ensures ReaderInv(c, t, k) && Delivered(c, t.readers[k], t.writer.sent) {
      assert ReaderInv(c, s, k) && Delivered(c, s.readers[k], s.writer.sent);
    }
  }

  lemma PollKeeps<T(!new)>(c: Config<T>, s: State<T>, i: nat)
    requires Inv(c, s) && i < c.readers && (s.readers[i].pc.PollRead? || s.readers[i].pc.PollWritten?)
    ensures Inv(c, ReaderStep(c, s, i))
  {
    var t := ReaderStep(c, s, i);
    assert ReaderInv(c, s, i) && Delivered(c, s.readers[i], s.writer.sent);
    if t.readers[i].pc.Load? { ReadableIffBehind(c, s, i); }
    ReaderLocalKeeps(c, s, i, t.readers[i]);
  }

  lemma LoadKeeps<T(!new)>(c: Config<T>, s: State<T>, i: nat)
    requires Inv(c, s) && i < c.readers && s.readers[i].pc.Load?
    ensures Inv(c, ReaderStep(c, s, i))
  {
    var t := ReaderStep(c, s, i);
    assert ReaderInv(c, s, i) && Delivered(c, s.readers[i], s.writer.sent);
    ReaderLocalKeeps(c, s, i, t.readers[i]);
  }

  /** What a reader has loaded when it marks the chunk is the message that the writer put there. */
  lemma LoadedIsSent<T(!new)>(c: Config<T>, s: State<T>, i: nat)
    requires Inv(c, s) && i < c.readers && s.readers[i].pc.Mark?
    ensures Read(s, i) < Written(s)
    ensures var m, acc := s.writer.sent[Read(s, i)], s.readers[i].pc.acc;
            if c.Overflow(m) then acc[0] == 1 else acc[0] != 1 && c.loads(acc[1..]) == m
  {
    var r, acc := Read(s, i), s.readers[i].pc.acc;
    assert ReaderInv(c, s, i);
    assert Holds(c, s, r);
    var m, chunk := s.writer.sent[r], s.data[c.Slot(r)];
    assert acc[0] == chunk[0] == c.Frame(m)[0];
    if !c.Overflow(m) {
      assert acc == chunk;
      var d := c.dumps(m);
      assert acc[1..] == d + acc[1 + |d|..] by {
        assert c.Frame(m) == [0] + d;
        assert acc == c.Frame(m) + acc[1 + |d|..];
      }
    }
  }

  lemma MarkKeeps<T(!new)>(c: Config<T>, s: State<T>, i: nat)
    requires Inv(c, s) && i < c.readers && s.readers[i].pc.Mark?
    ensures Inv(c, ReaderStep(c, s, i))
  {
    var t := ReaderStep(c, s, i);
    MarkCounts(c, s, i);
    MarkHolds(c, s, i);
    MarkWriter(c, s, i);
    forall k | 0 <= k < c.readers ensures ReaderInv(c, t, k) && Delivered(c, t.readers[k], t.writer.sent) {
      if k == i { MarkReader(c, s, i); } else { MarkOthers(c, s, i, k); }
    }
  }

  lemma MarkCounts<T(!new)>(c: Config<T>, s: State<T>, i: nat)
    requires Inv(c, s) && i < c.readers && s.readers[i].pc.Mark?
    ensures var t := ReaderStep(c, s, i);
            && Read(t, i) == Read(s, i) + 1 && (forall k :: 0 <= k < c.readers && k != i ==> Read(t, k) == Read(s, k))
            && Shape(c, t) && Counters(c, t) && FlagBytes(c, t)
  {
    assert ReaderInv(c, s, i);
  }

  lemma MarkWriter<T(!new)>(c: Config<T>, s: State<T>, i: nat)
    requires Inv(c, s) && i < c.readers && s.readers[i].pc.Mark?
    ensures WriterInv(c, ReaderStep(c, s, i))
  {
    assert ReaderInv(c, s, i);
    if s.writer.pc.Clear? || Clearing(s.writer.pc) { ReaderApart(c, s, i); }
  }

  lemma MarkReader<T(!new)>(c: Config<T>, s: State<T>, i: nat)
    requires Inv(c, s) && i < c.readers && s.readers[i].pc.Mark?
    ensures ReaderInv(c, ReaderStep(c, s, i), i)
    ensures Delivered(c, ReaderStep(c, s, i).readers[i], s.writer.sent)
  {
    assert ReaderInv(c, s, i) && Delivered(c, s.readers[i], s.writer.sent);
    var r := Read(s, i);
    LoadedIsSent(c, s, i);
    if !c.Overflow(s.writer.sent[r]) { OversizedGrows(c, s.readers[i].got, s.writer.sent[r]); }
  }

  lemma MarkOthers<T(!new)>(c: Config<T>, s: State<T>, i: nat, k: nat)
    requires Inv(c, s) && i < c.readers && s.readers[i].pc.Mark? && k < c.readers && k != i
    ensures ReaderInv(c, ReaderStep(c, s, i), k)
    ensures Delivered(c, ReaderStep(c, s, i).readers[k], s.writer.sent)
  {
    assert ReaderInv(c, s, k) && Delivered(c, s.readers[k], s.writer.sent);
  }

  lemma MarkHolds<T(!new)>(c: Config<T>, s: State<T>, i: nat)
    requires Inv(c, s) && i < c.readers && s.readers[i].pc.Mark?
    ensures Slots(c, ReaderStep(c, s, i))
  {
    var t := ReaderStep(c, s, i);
    var r := Read(s, i);
    MarkCounts(c, s, i);
    forall j: nat | Oldest(c, t) <= j < Written(t) ensures Holds(c, t, j) {
      assert Holds(c, s, j);
      if j != r { if c.Slot(j) == c.Slot(r) { SlotSame(c, j, r); } }
      assert FlagsFor(c, t, j);
    }
  }

  lemma RecvKeeps<T(!new)>(c: Config<T>, s: State<T>, i: nat)
    requires Inv(c, s) && i < c.readers && s.readers[i].pc.Recv?
    ensures Inv(c, ReaderStep(c, s, i))
  {
    var t := ReaderStep(c, s, i);
    var r := s.readers[i];
    var n := |r.got|;
    assert ReaderInv(c, s, i) && Delivered(c, r, s.writer.sent);
    if r.received < |s.socket| {
      SocketPairs(c, s, i);
      OversizedGrows(c, r.got, s.writer.sent[n]);
      ReaderLocalKeeps(c, s, i, t.readers[i]);
    }
  }

  /** The next socket message of a reader that waits for one is the oversized message it waits for. */
  lemma SocketPairs<T(!new)>(c: Config<T>, s: State<T>, i: nat)
    requires Inv(c, s) && i < c.readers && s.readers[i].pc.Recv?
    ensures |s.readers[i].got| < Written(s)
    ensures s.readers[i].received < |s.socket| ==>
              c.loads(s.socket[s.readers[i].received]) == s.writer.sent[|s.readers[i].got|]
    ensures s.readers[i].received >= |s.socket| ==> s.writer.pc.Send?
  {
    var r, sent := s.readers[i], s.writer.sent;
    var n := |r.got|;
    assert ReaderInv(c, s, i) && Delivered(c, r, sent);
    assert r.got == sent[..n];
    OversizedAt(c, sent, n);
    assert c.dumps(sent[n]) + [] == c.dumps(sent[n]);
    assert s.socket <= Oversized(c, sent);
  }

  lemma ReaderKeeps<T(!new)>(c: Config<T>, s: State<T>, i: nat)
    requires Inv(c, s) && i < c.readers
    ensures Inv(c, ReaderStep(c, s, i))
  {
    match s.readers[i].pc
    case Rest =>
    case PollRead => PollKeeps(c, s, i);
    case PollWritten(_) => PollKeeps(c, s, i);
    case Load(_) => LoadKeeps(c, s, i);
    case Mark(_) => MarkKeeps(c, s, i);
    case Recv => RecvKeeps(c, s, i);
  }

  lemma NextKeeps<T(!new)>(c: Config<T>, s: State<T>, a: Action<T>)
    requires Inv(c, s)
    ensures Inv(c, Next(c, s, a))
  {
    var t := Next(c, s, a);
    match a
    case WriterAct => WriterKeeps(c, s);
    case ReaderAct(i) => if i < c.readers { ReaderKeeps(c, s, i); }
    case Enqueue(m) => IdleKeeps(c, s, t.writer.pc);
    case WriterTimeout => IdleKeeps(c, s, t.writer.pc);
    case Dequeue(i) => if i < c.readers { DequeueKeeps(c, s, i, a); }
    case ReaderTimeout(i) => if i < c.readers { DequeueKeeps(c, s, i, a); }
  }

  /** Starting or giving up a dequeue touches no memory either. */
  lemma DequeueKeeps<T(!new)>(c: Config<T>, s: State<T>, i: nat, a: Action<T>)
    requires Inv(c, s) && i < c.readers && (a == Dequeue(i) || a == ReaderTimeout(i))
    ensures Inv(c, Next(c, s, a))
  {
    assert Delivered(c, s.readers[i], s.writer.sent) && ReaderInv(c, s, i);
    ReaderLocalKeeps(c, s, i, Next(c, s, a).readers[i]);
  }

  /** Starting or giving up an enqueue touches no memory. */
  lemma IdleKeeps<T(!new)>(c: Config<T>, s: State<T>, pc: WriterPc<T>)
    requires Inv(c, s)
    requires pc == s.writer.pc || ((s.writer.pc.Idle? || s.writer.pc.Scan?)
              && (pc.Idle? || (pc.Scan? && pc.i == 1 && pc.sum == 0)))
    ensures Inv(c, WithWriter(s, pc))
  {
    var t := WithWriter(s, pc);
    assert Shape(c, t);
    SameHolds(c, s, t);
    forall k | 0 <= k < c.readers ensures ReaderInv(c, t, k) && Delivered(c, t.readers[k], t.writer.sent) {
      assert ReaderInv(c, s, k) && Delivered(c, s.readers[k], s.writer.sent);
    }
  }
}
