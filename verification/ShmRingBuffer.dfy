/**
 The flat memory behind the broadcast ring: chunk data first, then one metadata row per chunk.
 The processes run on this memory, one byte access per call, and refine the steps of ShmBroadcast.
*/
module ShmRingBuffer {
  import opened ShmBroadcast
  import opened ShmBroadcastTheorems

  // ---- layout ----

  function MetadataSize<T(!new)>(c: Config<T>): nat { 1 + c.readers }

  function MetadataOffset<T(!new)>(c: Config<T>): nat { c.bytes * c.chunks }

  function TotalBytes<T(!new)>(c: Config<T>): nat { (c.bytes + MetadataSize(c)) * c.chunks }

  /** Row `x` of width `w` in a table of `n` rows that starts at `base` and lies within `total` bytes. */
  lemma RowWithin(base: nat, x: nat, n: nat, w: nat)
    requires x < n
    ensures base <= base + x * w <= base + x * w + w <= base + n * w
  {
    assert n * w == x * w + w + (n - x - 1) * w;
    assert (n - x - 1) * w >= 0;
  }

  lemma RowsOrdered(x: nat, z: nat, w: nat)
    requires x < z
    ensures x * w + w <= z * w
  {
    RowWithin(0, x, z, w);
  }

  function MetaAt<T(!new)>(c: Config<T>, x: nat, y: nat): (a: nat)
    requires x < c.chunks && y < MetadataSize(c)
    ensures MetadataOffset(c) <= a < TotalBytes(c)
  {
    RowWithin(MetadataOffset(c), x, c.chunks, MetadataSize(c));
    MetadataOffset(c) + x * MetadataSize(c) + y
  }

  function DataAt<T(!new)>(c: Config<T>, x: nat, k: nat): (a: nat)
    requires x < c.chunks && k < c.bytes
    ensures a < MetadataOffset(c) <= TotalBytes(c)
  {
    RowWithin(0, x, c.chunks, c.bytes);
    x * c.bytes + k
  }

  /** `n` rows of `w` bytes each, from `base` on. */
  ghost function Rows(b: seq<Byte>, base: nat, n: nat, w: nat): (r: seq<seq<Byte>>)
    requires base + n * w <= |b|
    ensures |r| == n && forall x :: 0 <= x < n ==> |r[x]| == w
  {
    seq(n, x requires 0 <= x < n => Row(b, base, n, w, x))
  }

  ghost function Row(b: seq<Byte>, base: nat, n: nat, w: nat, x: nat): (r: seq<Byte>)
    requires base + n * w <= |b| && x < n
    ensures |r| == w
  {
    RowWithin(base, x, n, w);
    b[base + x * w..base + x * w + w]
  }

  ghost function MetaView<T(!new)>(c: Config<T>, b: seq<Byte>): seq<seq<Byte>>
    requires |b| == TotalBytes(c)
  {
    Rows(b, MetadataOffset(c), c.chunks, MetadataSize(c))
  }

  ghost function DataView<T(!new)>(c: Config<T>, b: seq<Byte>): seq<seq<Byte>>
    requires |b| == TotalBytes(c)
  {
    Rows(b, 0, c.chunks, c.bytes)
  }

  /** Writing inside a table changes one byte of one row. */
  lemma RowsPoke(b: seq<Byte>, base: nat, n: nat, w: nat, x: nat, y: nat, v: Byte)
    requires base + n * w <= |b| && x < n && y < w
    ensures base + x * w + y < |b|
    ensures Rows(b, base, n, w)[x][y] == b[base + x * w + y]
    ensures Rows(b[base + x * w + y := v], base, n, w) == Poke(Rows(b, base, n, w), x, y, v)
  {
    RowWithin(base, x, n, w);
    var a := base + x * w + y;
    var b' := b[a := v];
    var old_, new_ := Rows(b, base, n, w), Rows(b', base, n, w);
    forall z | 0 <= z < n ensures new_[z] == Poke(old_, x, y, v)[z] {
      RowWithin(base, z, n, w);
      if z < x { RowsOrdered(z, x, w); } else if x < z { RowsOrdered(x, z, w); }
    }
  }

  /** Writing outside a table leaves it alone. */
  lemma RowsElsewhere(b: seq<Byte>, base: nat, n: nat, w: nat, a: nat, v: Byte)
    requires base + n * w <= |b| && a < |b| && (a < base || base + n * w <= a)
    ensures Rows(b[a := v], base, n, w) == Rows(b, base, n, w)
  {
    forall z | 0 <= z < n ensures Rows(b[a := v], base, n, w)[z] == Rows(b, base, n, w)[z] {
      RowWithin(base, z, n, w);
    }
  }

  /** One metadata byte of the flat memory is one flag of the protocol; data and other flags are untouched. */
  lemma MetaPoke<T(!new)>(c: Config<T>, b: seq<Byte>, x: nat, y: nat, v: Byte)
    requires |b| == TotalBytes(c) && x < c.chunks && y < MetadataSize(c)
    ensures b[MetaAt(c, x, y)] == MetaView(c, b)[x][y]
    ensures MetaView(c, b[MetaAt(c, x, y) := v]) == Poke(MetaView(c, b), x, y, v)
    ensures DataView(c, b[MetaAt(c, x, y) := v]) == DataView(c, b)
  {
    RowsPoke(b, MetadataOffset(c), c.chunks, MetadataSize(c), x, y, v);
    RowsElsewhere(b, 0, c.chunks, c.bytes, MetaAt(c, x, y), v);
  }

  lemma DataPoke<T(!new)>(c: Config<T>, b: seq<Byte>, x: nat, k: nat, v: Byte)
    requires |b| == TotalBytes(c) && x < c.chunks && k < c.bytes
    ensures b[DataAt(c, x, k)] == DataView(c, b)[x][k]
    ensures DataView(c, b[DataAt(c, x, k) := v]) == Poke(DataView(c, b), x, k, v)
    ensures MetaView(c, b[DataAt(c, x, k) := v]) == MetaView(c, b)
  {
    RowsPoke(b, 0, c.chunks, c.bytes, x, k, v);
    RowsElsewhere(b, MetadataOffset(c), c.chunks, MetadataSize(c), DataAt(c, x, k), v);
  }

  // ---- processes on the flat memory ----

  /** The writer's and the readers' queues attached to one shared buffer. */
  class MessageQueues<T(!new)> {
    const c: Config<T>
    const buf: array<Byte>
    const readers: array<Reader<T>>
    var writer: Writer<T>
    var socket: seq<seq<Byte>>

    ghost predicate Valid()
      reads this, buf, readers
    {
      buf.Length == TotalBytes(c) && Shape(c, Abs())
    }

    ghost function Abs(): State<T>
      requires buf.Length == TotalBytes(c)
      reads this, buf, readers
    {
      State(MetaView(c, buf[..]), DataView(c, buf[..]), socket, writer, readers[..])
    }

    constructor (c: Config<T>)
      requires c.Ok()
      ensures Valid() && this.c == c && fresh(buf) && fresh(readers)
      ensures Init(c, Abs())
    {
      var memory := NewMemory(c);
      var queues := new Reader<T>[c.readers](_ => Reader(Rest, 0, 0, []));
      this.c := c;
      buf, readers := memory, queues;
      writer, socket := Writer(WriterPc.Idle, 0, []), [];
    }

    /** A buffer whose metadata section is all 0. */
    static method NewMemory(c: Config<T>) returns (memory: array<Byte>)
      ensures fresh(memory) && memory.Length == TotalBytes(c)
      ensures forall x, y :: 0 <= x < c.chunks && 0 <= y < MetadataSize(c) ==> MetaView(c, memory[..])[x][y] == 0
    {
      memory := new Byte[TotalBytes(c)];
      var start := MetadataOffset(c);
      assert start <= memory.Length by { assert memory.Length == start + MetadataSize(c) * c.chunks; }
      for a := start to memory.Length
        invariant forall z :: start <= z < a ==> memory[z] == 0
      {
        memory[a] := 0;
      }
      forall x, y | 0 <= x < c.chunks && 0 <= y < MetadataSize(c) ensures MetaView(c, memory[..])[x][y] == 0 {
        MetaPoke(c, memory[..], x, y, 0);
      }
    }

    // The four accesses to shared memory, one byte each.

    method SetFlag(x: nat, y: nat, v: Byte)
      requires Valid() && x < c.chunks && y < MetadataSize(c)
      modifies buf
      ensures Valid() && Abs() == old(Abs()).(meta := Poke(old(Abs()).meta, x, y, v))
    {
      MetaPoke(c, buf[..], x, y, v);
      ghost var before := buf[..];
      buf[MetaAt(c, x, y)] := v;
      assert buf[..] == before[MetaAt(c, x, y) := v];
    }

    method GetFlag(x: nat, y: nat) returns (v: Byte)
      requires Valid() && x < c.chunks && y < MetadataSize(c)
      ensures v == Abs().meta[x][y]
    {
      MetaPoke(c, buf[..], x, y, 0);
      v := buf[MetaAt(c, x, y)];
    }

    method SetData(x: nat, k: nat, v: Byte)
      requires Valid() && x < c.chunks && k < c.bytes
      modifies buf
      ensures Valid() && Abs() == old(Abs()).(data := Poke(old(Abs()).data, x, k, v))
    {
      DataPoke(c, buf[..], x, k, v);
      ghost var before := buf[..];
      buf[DataAt(c, x, k)] := v;
      assert buf[..] == before[DataAt(c, x, k) := v];
    }

    method GetData(x: nat, k: nat) returns (v: Byte)
      requires Valid() && x < c.chunks && k < c.bytes
      ensures v == Abs().data[x][k]
    {
      DataPoke(c, buf[..], x, k, 0);
      v := buf[DataAt(c, x, k)];
    }

    /** Reader `i` goes on with `r`. */
    method SetReader(i: nat, r: Reader<T>)
      requires Valid() && i < c.readers && Shape(c, WithReader(Abs(), i, r))
      modifies readers
      ensures Valid() && Abs() == WithReader(old(Abs()), i, r)
    {
      ghost var before := readers[..];
      readers[i] := r;
      assert readers[..] == before[i := r];
    }

    method ScanStep()
      requires Valid() && writer.pc.Scan?
      modifies this`writer
      ensures Valid() && Abs() == WriterStep(c, old(Abs()))
    {
      var x, m, i, sum := writer.idx, writer.pc.m, writer.pc.i, writer.pc.sum;
      if i <= c.readers {
        var flag := GetFlag(x, i);
        writer := writer.(pc := Scan(m, i + 1, sum + flag));
      } else {
        var written := GetFlag(x, 0);
        writer := writer.(pc := if Unwritable(c.readers, written, sum) then Scan(m, 1, 0) else Clear(m));
      }
    }

    method FillStep()
      requires Valid() && writer.pc.Fill?
      modifies this`writer, buf
      ensures Valid() && Abs() == WriterStep(c, old(Abs()))
    {
      var x, m, k := writer.idx, writer.pc.m, writer.pc.k;
      var frame := c.Frame(m);
      SetData(x, k, frame[k]);
      writer := writer.(pc := if k + 1 == |frame| then Reset(m, 1) else Fill(m, k + 1));
    }

    method FlagStep()
      requires Valid() && (writer.pc.Clear? || writer.pc.Reset? || writer.pc.Publish?)
      modifies this`writer, buf
      ensures Valid() && Abs() == WriterStep(c, old(Abs()))
    {
      var x, m := writer.idx, writer.pc.m;
      if writer.pc.Clear? {
        SetFlag(x, 0, 0);
        writer := writer.(pc := Fill(m, 0));
      } else if writer.pc.Reset? {
        var i := writer.pc.i;
        SetFlag(x, i, 0);
        writer := writer.(pc := if i == c.readers then Publish(m) else Reset(m, i + 1));
      } else {
        SetFlag(x, 0, 1);
        AdvanceIsMod(c, x);
        writer := Writer(if c.Overflow(m) then Send(m) else WriterPc.Idle, (x + 1) % c.chunks, writer.sent + [m]);
      }
    }

    /** One step of acquire_write, enqueue's use of the chunk, and the socket send. */
    method WriterAct()
      requires Valid()
      modifies this`writer, this`socket, buf
      ensures Valid() && Abs() == WriterStep(c, old(Abs()))
    {
      match writer.pc {
        case Idle =>
        case Scan(_, _, _) => ScanStep();
        case Fill(_, _) => FillStep();
        case Send(m) =>
          socket := socket + [c.dumps(m)];
          writer := writer.(pc := WriterPc.Idle);
        case _ => FlagStep();
      }
    }

    method PollStep(i: nat)
      requires Valid() && i < c.readers && (readers[i].pc.PollRead? || readers[i].pc.PollWritten?)
      modifies readers
      ensures Valid() && Abs() == ReaderStep(c, old(Abs()), i)
    {
      var r := readers[i];
      if r.pc.PollRead? {
        var read := GetFlag(r.idx, i + 1);
        SetReader(i, r.(pc := PollWritten(read)));
      } else {
        var written := GetFlag(r.idx, 0);
        SetReader(i, r.(pc := if written == 0 || r.pc.read != 0 then PollRead else Load([])));
      }
    }

    method LoadStep(i: nat)
      requires Valid() && i < c.readers && readers[i].pc.Load?
      modifies readers
      ensures Valid() && Abs() == ReaderStep(c, old(Abs()), i)
    {
      var r := readers[i];
      var byte := GetData(r.idx, |r.pc.acc|);
      var acc := r.pc.acc + [byte];
      SetReader(i, r.(pc := if acc[0] == 1 || |acc| == c.bytes then Mark(acc) else Load(acc)));
    }

    method MarkStep(i: nat)
      requires Valid() && i < c.readers && readers[i].pc.Mark?
      modifies readers, buf
      ensures Valid() && Abs() == ReaderStep(c, old(Abs()), i)
    {
      var r := readers[i];
      var x, acc := r.idx, r.pc.acc;
      SetFlag(x, i + 1, 1);
      AdvanceIsMod(c, x);
      var idx := (x + 1) % c.chunks;
      if acc[0] == 1 {
        SetReader(i, r.(pc := Recv, idx := idx));
      } else {
        SetReader(i, r.(pc := Rest, idx := idx, got := r.got + [c.loads(acc[1..])]));
      }
    }

    method RecvStep(i: nat)
      requires Valid() && i < c.readers && readers[i].pc.Recv?
      modifies readers
      ensures Valid() && Abs() == ReaderStep(c, old(Abs()), i)
    {
      var r := readers[i];
      if r.received < |socket| {
        SetReader(i, r.(pc := Rest, received := r.received + 1, got := r.got + [c.loads(socket[r.received])]));
      }
    }

    /** One step of acquire_read and dequeue by reader `i`. */
    method ReaderAct(i: nat)
      requires Valid() && i < c.readers
      modifies readers, buf
      ensures Valid() && Abs() == ReaderStep(c, old(Abs()), i)
    {
      match readers[i].pc {
        case Rest =>
        case Load(_) => LoadStep(i);
        case Mark(_) => MarkStep(i);
        case Recv => RecvStep(i);
        case _ => PollStep(i);
      }
    }

    /** The timeout of a failed poll: the call raises and the queue is as if it had not been made. */
    method Timeout(a: Action<T>)
      requires Valid() && (a.WriterTimeout? || a.ReaderTimeout?)
      modifies this`writer, readers
      ensures Valid() && Abs() == Next(c, old(Abs()), a)
    {
      if a.WriterTimeout? {
        if writer.pc.Scan? && writer.pc.i == c.readers + 1 {
          var written := GetFlag(writer.idx, 0);
          if Unwritable(c.readers, written, writer.pc.sum) { writer := writer.(pc := WriterPc.Idle); }
        }
      } else if a.i < c.readers && readers[a.i].pc.PollWritten? {
        var r := readers[a.i];
        var written := GetFlag(r.idx, 0);
        if written == 0 || r.pc.read != 0 { SetReader(a.i, r.(pc := Rest)); }
      }
    }

    method Act(a: Action<T>)
      requires Valid()
      modifies this, buf, readers
      ensures Valid() && Abs() == Next(c, old(Abs()), a)
    {
      match a {
        case Enqueue(m) =>
          if writer.pc.Idle? { writer := writer.(pc := Scan(m, 1, 0)); }
        case WriterAct => WriterAct();
        case Dequeue(i) =>
          if i < c.readers && readers[i].pc.Rest? { SetReader(i, readers[i].(pc := PollRead)); }
        case ReaderAct(i) =>
          if i < c.readers { ReaderAct(i); }
        case _ => Timeout(a);
      }
    }

    /**
     Any schedule of the processes on the flat memory is a run of the protocol, so its promises hold here: what
     is published was enqueued, and every call of a reader has returned a message or is under way.
    */
    method Execute(schedule: seq<Action<T>>)
      requires Valid() && Init(c, Abs())
      modifies this, buf, readers
      ensures Valid() && Abs() == Run(c, old(Abs()), schedule)
      ensures forall i :: 0 <= i < c.readers ==> readers[i].got <= writer.sent
      ensures writer.sent + InFlight(writer.pc) == Enqueued(c, old(Abs()), schedule, [])
      ensures forall i :: 0 <= i < c.readers ==> Calls(readers[i]) == Asked(c, old(Abs()), schedule, i)
    {
      ghost var start := Abs();
      var n := 0;
      while n < |schedule|
        invariant 0 <= n <= |schedule| && Valid()
        invariant Run(c, start, schedule) == Run(c, Abs(), schedule[n..])
      {
        assert schedule[n..][0] == schedule[n] && schedule[n..][1..] == schedule[n + 1..];
        Act(schedule[n]);
        n := n + 1;
      }
      PublishedIsEnqueued(c, start, schedule, []);
      forall i | 0 <= i < c.readers
        ensures readers[i].got <= writer.sent && Calls(readers[i]) == Asked(c, start, schedule, i)
      {
        BroadcastIsPrefix(c, start, schedule, i);
        CallsAreAsked(c, start, schedule, i);
        assert Abs().readers[i] == readers[i];
      }
    }
  }
}
