/**
 How the task dispatcher connects the producers and consumers of forwarded data: all forwards with the
 same id come to share one list of destinations.
*/
module DispatcherWiring {
  import opened Options
  import opened DispatcherTraversal
  import opened DispatcherEvents

  // ---- the wiring ----

  datatype Outcome = Connected | ValueError | AssertionError

  /** The wiring after some events: the loop's dictionary, the forwards seen and the lists created. */
  datatype RawTrace = RawTrace(producers: map<nat, DataForward>, seen: set<DataForward>, lists: map<nat, RankList>,
                               sources: map<nat, Ranks>, dests: map<nat, seq<Ranks>>)
  {
    /** Of an id without a list, only the producer has been seen. */
    ghost predicate Ok() {
      && producers.Keys == sources.Keys && lists.Keys == dests.Keys && dests.Keys <= sources.Keys
      && (forall i {:trigger IdOk(i)} :: IdOk(i))
      && (forall f {:trigger SeenOk(f)} :: f in seen ==> SeenOk(f))
    }

    ghost predicate IdOk(i: nat) {
      (i in producers ==> producers[i] in seen && producers[i].id == i) && (i in lists ==> lists[i].id == i)
    }

    ghost predicate SeenOk(f: DataForward) {
      f.id in producers && (f.id in lists || producers[f.id] == f)
    }

    ghost function Src(f: DataForward): Option<Ranks> {
      if f.id in sources then Some(sources[f.id]) else None
    }

    ghost function Dst(f: DataForward): RankList? {
      if f in seen && f.id in lists then lists[f.id] else null
    }

    ghost function Appended(id: nat, l: RankList, ranks: Ranks): RawTrace {
      this.(lists := lists[id := l],
            dests := dests[id := (if id in dests then dests[id] else []) + [ranks]])
    }

    ghost function Produced(f: DataForward, ranks: Ranks): RawTrace {
      this.(producers := producers[f.id := f], seen := seen + {f}, sources := sources[f.id := ranks])
    }
  }

  type Trace = t: RawTrace | t.Ok() ghost witness RawTrace(map[], {}, map[], map[], map[])

  lemma AppendedOk(t: Trace, p: DataForward, l: RankList, ranks: Ranks)
    requires p in t.seen && p.id in t.producers && t.producers[p.id] == p && l.id == p.id
    requires p.id in t.lists ==> t.lists[p.id] == l
    ensures t.Appended(p.id, l, ranks).Ok()
    ensures forall f {:trigger t.Dst(f)} :: f != p ==> t.Appended(p.id, l, ranks).Dst(f) == t.Dst(f)
    ensures forall i {:trigger t.lists[i]} :: i in t.lists && i != p.id ==> t.lists[i] != l
  {
    var t' := t.Appended(p.id, l, ranks);
    forall i ensures t'.IdOk(i) { assert t.IdOk(i); }
    forall f | f in t'.seen ensures t'.SeenOk(f) { assert t.SeenOk(f); }
    forall f | f != p ensures t'.Dst(f) == t.Dst(f) { assert f in t.seen ==> t.SeenOk(f); }
    forall i | i in t.lists && i != p.id ensures t.lists[i] != l { assert t.IdOk(i); }
  }

  lemma PointedOk(t: Trace, f: DataForward)
    requires f.id in t.lists
    ensures t.(seen := t.seen + {f}).Ok()
  {
    var t' := t.(seen := t.seen + {f});
    forall i ensures t'.IdOk(i) { assert t.IdOk(i); }
    forall g | g in t'.seen ensures t'.SeenOk(g) { assert g in t.seen ==> t.SeenOk(g); }
  }

  lemma ProducedOk(t: Trace, f: DataForward, ranks: Ranks)
    requires f.id !in t.sources
    ensures t.Produced(f, ranks).Ok()
    ensures f !in t.seen && t.Produced(f, ranks).Dst(f) == t.Dst(f) == null
    ensures forall g {:trigger t.Src(g)} :: g in t.seen ==> t.Produced(f, ranks).Src(g) == t.Src(g)
  {
    var t' := t.Produced(f, ranks);
    assert f in t.seen ==> t.SeenOk(f);
    forall i ensures t'.IdOk(i) { assert t.IdOk(i); }
    forall g | g in t'.seen ensures t'.SeenOk(g) { assert g in t.seen ==> t.SeenOk(g); }
    forall g | g in t.seen ensures t'.Src(g) == t.Src(g) { assert t.SeenOk(g); }
  }

  /** The wiring is where it should be after `evs`. */
  ghost predicate Explains(t: Trace, evs: seq<Event>) {
    t.sources == Sources(evs) && t.dests == Destinations(evs)
  }

  /** A list of destinations with its first entry. */
  method NewList(ghost id: nat, ranks: Ranks) returns (l: RankList)
    ensures fresh(l) && l.id == id && l.items == [ranks]
  {
    l := new RankList(id);
    l.items := l.items + [ranks];
  }

  /** The state of the wiring loop over the forwards in `all`. */
  class Wiring {
    var producers: map<nat, DataForward>
    ghost const all: set<DataForward>
    ghost var t: Trace
    ghost var pool: set<RankList>

    ghost predicate Valid()
      reads this, all, pool
    {
      t.producers == producers && t.seen <= all && FieldsOk() && ListsOk()
    }

    ghost predicate FieldsOk()
      reads this, all
    {
      && (forall f {:trigger f in all} :: f in all ==> f.dst == t.Dst(f))
      && (forall f {:trigger f in t.seen} :: f in t.seen && f in all ==> f.src == t.Src(f))
    }

    ghost predicate ListsOk()
      reads this, pool
    {
      forall i {:trigger t.lists[i]} :: i in t.lists ==> t.lists[i] in pool && t.lists[i].items == t.dests[i]
    }

    constructor (ghost all: set<DataForward>)
      requires forall f :: f in all ==> f.dst == null
      ensures Valid() && this.all == all && Explains(t, []) && t.seen == {} && pool == {}
    {
      this.all := all;
      producers, pool := map[], {};
      t := RawTrace(map[], {}, map[], map[], map[]);
    }

    /** One forward in a task's input; false stands for the ValueError. */
    method Consume(f: DataForward, ranks: Ranks) returns (ok: bool)
      requires Valid() && f in all
      modifies this, all, pool
      ensures ok <==> f.id in old(t).sources
      ensures ok ==> Valid() && t.seen == old(t).seen + {f} && t.sources == old(t).sources
      ensures ok ==>
                t.dests == old(t).dests[f.id := (if f.id in old(t).dests then old(t).dests[f.id] else []) + [ranks]]
      ensures ok ==> fresh(pool - old(pool))
    {
      if f.id !in producers {
        return false;
      }
      var p := producers[f.id];
      assert t.IdOk(f.id) && t.SeenOk(p);
      if p.dst == null {
        AppendFirst(p, ranks);
      } else {
        AppendMore(p, p.dst, ranks);
      }
      Point(f, p);
      ok := true;
    }

    /** The producer is consumed for the first time. */
    method AppendFirst(p: DataForward, ranks: Ranks)
      requires Valid() && p in t.seen && p.id in t.producers && t.producers[p.id] == p && p.dst == null
      modifies this`t, this`pool, p`dst
      ensures Valid() && p.dst != null && t == old(t).Appended(p.id, p.dst, ranks)
      ensures pool == old(pool) + {p.dst} && fresh(p.dst)
    {
      var l := NewList(p.id, ranks);
      AppendedOk(t, p, l, ranks);
      p.dst := l;
      t, pool := t.Appended(p.id, l, ranks), pool + {l};
    }

    method AppendMore(p: DataForward, l: RankList, ranks: Ranks)
      requires Valid() && p in t.seen && p.id in t.producers && t.producers[p.id] == p && p.dst == l
      modifies this`t, l
      ensures Valid() && t == old(t).Appended(p.id, l, ranks)
    {
      assert t.IdOk(p.id);
      AppendedOk(t, p, l, ranks);
      l.items := l.items + [ranks];
      t := t.Appended(p.id, l, ranks);
    }

    /** The consumer takes the producer's ranks and shares its list. */
    method Point(f: DataForward, p: DataForward)
      requires Valid() && f in all && p in t.seen && p.id == f.id && f.id in t.lists
      modifies this`t, f
      ensures Valid() && t == old(t).(seen := old(t).seen + {f})
    {
      assert t.SeenOk(p);
      PointedOk(t, f);
      f.src := p.src;
      f.dst := p.dst;
      t := t.(seen := t.seen + {f});
    }

    /** One forward in a task's output. */
    method Produce(f: DataForward, ranks: Ranks)
      requires Valid() && f in all && f.id !in t.sources
      modifies this`t, this`producers, f
      ensures Valid() && t == old(t).Produced(f, ranks)
    {
      ProducedOk(t, f, ranks);
      f.src := Some(ranks);
      producers := producers[f.id := f];
      t := t.Produced(f, ranks);
    }

    /** The loop over a task's input. */
    method ConsumeAll(fs: seq<DataForward>, ranks: Ranks, ghost evs: seq<Event>) returns (ok: bool)
      requires Valid() && InAll(fs, all) && Explains(t, evs) && UsesOk(evs)
      modifies this, all, pool
      ensures ok <==> UsesOk(Uses(evs, fs, ranks, |fs|))
      ensures ok ==> Valid() && Explains(t, Uses(evs, fs, ranks, |fs|)) && t.seen == With(old(t).seen, fs, |fs|)
      ensures ok ==> fresh(pool - old(pool))
    {
      ghost var seen0 := t.seen;
      for k := 0 to |fs|
        invariant Valid() && Explains(t, Uses(evs, fs, ranks, k)) && UsesOk(Uses(evs, fs, ranks, k))
        invariant t.seen == With(seen0, fs, k) && fresh(pool - old(pool))
      {
        var found := ConsumeNext(fs, ranks, evs, k);
        if !found {
          return false;
        }
      }
      ok := true;
    }

    method ConsumeNext(fs: seq<DataForward>, ranks: Ranks, ghost evs: seq<Event>, k: nat) returns (ok: bool)
      requires k < |fs| && fs[k] in all && Valid() && Explains(t, Uses(evs, fs, ranks, k))
      requires UsesOk(Uses(evs, fs, ranks, k))
      modifies this, all, pool
      ensures !ok ==> !UsesOk(Uses(evs, fs, ranks, |fs|))
      ensures ok ==> Valid() && Explains(t, Uses(evs, fs, ranks, k + 1)) && UsesOk(Uses(evs, fs, ranks, k + 1))
      ensures ok ==> t.seen == old(t).seen + {fs[k]} && fresh(pool - old(pool))
    {
      UsesStep(evs, fs, ranks, k);
      UseNext(Uses(evs, fs, ranks, k), fs[k].id, ranks);
      ok := Consume(fs[k], ranks);
    }

    /** The loop over a task's output. */
    method ProduceAll(fs: seq<DataForward>, ranks: Ranks, ghost evs: seq<Event>)
      requires Valid() && InAll(fs, all) && Explains(t, evs) && MadeOnce(Makes(evs, fs, ranks, |fs|))
      modifies this, all
      ensures Valid() && Explains(t, Makes(evs, fs, ranks, |fs|))
      ensures t.seen == With(old(t).seen, fs, |fs|) && pool == old(pool)
    {
      for k := 0 to |fs|
        invariant Valid() && Explains(t, Makes(evs, fs, ranks, k))
        invariant t.seen == With(old(t).seen, fs, k) && pool == old(pool)
      {
        MakesStep(evs, fs, ranks, k);
        MakeNext(Makes(evs, fs, ranks, k), fs[k].id, ranks);
        Produce(fs[k], ranks);
      }
    }

    /** The check after the loop. */
    method Verify() returns (ok: bool)
      requires Valid()
      ensures ok <==> t.sources.Keys <= t.dests.Keys
    {
      forall i | i in producers ensures producers[i].dst != null <==> i in t.dests {
        assert t.IdOk(i);
      }
      ok := true;
      var ids := producers.Keys;
      while ids != {}
        invariant ids <= producers.Keys
        invariant ok <==> forall i :: i in producers && i !in ids ==> producers[i].dst != null
        decreases ids
      {
        var i :| i in ids;
        if producers[i].dst == null {
          ok := false;
        }
        ids := ids - {i};
      }
    }
  }

  /** The wiring loop; false stands for the ValueError. */
  method WireAll(w: Wiring, xs: seq<Execution>) returns (ok: bool)
    requires w.Valid() && w.all == ObjectsOf(xs) && Explains(w.t, []) && w.t.seen == {} && MadeOnce(Events(xs))
    modifies w, w.all, w.pool
    ensures ok <==> UsesOk(Events(xs))
    ensures ok ==> w.Valid() && Explains(w.t, Events(xs)) && w.t.seen == ObjectsOf(xs)
  {
    for i := 0 to |xs|
      invariant w.Valid() && Explains(w.t, Events(xs[..i])) && UsesOk(Events(xs[..i])) && w.t.seen == ObjectsOf(xs[..i])
      invariant fresh(w.pool - old(w.pool))
    {
      ok := WireNext(w, xs, i);
      if !ok {
        return;
      }
    }
    assert xs[..|xs|] == xs;
    ok := true;
  }

  /** One execution: what it consumes, then what it produces. */
  method WireNext(w: Wiring, xs: seq<Execution>, i: nat) returns (ok: bool)
    requires i < |xs| && w.Valid() && w.all == ObjectsOf(xs) && MadeOnce(Events(xs))
    requires Explains(w.t, Events(xs[..i])) && UsesOk(Events(xs[..i])) && w.t.seen == ObjectsOf(xs[..i])
    modifies w, w.all, w.pool
    ensures !ok ==> !UsesOk(Events(xs))
    ensures ok ==>
              w.Valid() && Explains(w.t, Events(xs[..i + 1])) && UsesOk(Events(xs[..i + 1]))
              && w.t.seen == ObjectsOf(xs[..i + 1])
    ensures ok ==> fresh(w.pool - old(w.pool))
  {
    var x := xs[i];
    var fs, gs := Forwards(x.input), Forwards(x.output);
    assert xs[..i + 1][..i] == xs[..i];
    EventsPrefix(xs, i + 1);
    ObjectsPrefix(xs, i + 1);
    ghost var evs := Uses(Events(xs[..i]), fs, x.ranks, |fs|);
    MakesFront(evs, gs, x.ranks, 0, |gs|);
    ok := w.ConsumeAll(fs, x.ranks, Events(xs[..i]));
    if ok {
      MakesKeepUses(evs, gs, x.ranks, |gs|);
      w.ProduceAll(gs, x.ranks, evs);
    }
  }

  /**
   The wiring part of TaskDispatcher.invoke: a forward gets the ranks of the invocation that produces its id,
   and one list, shared by all forwards with the id, of the ranks of every invocation that consumes it.
  */
  method Connect(xs: seq<Execution>) returns (r: Outcome)
    requires forall f :: f in ObjectsOf(xs) ==> f.dst == null
    requires OneProducer(xs)
    modifies ObjectsOf(xs)
    ensures r == ValueError <==> !AllFed(xs)
    ensures r == AssertionError <==> AllFed(xs) && !NoneLost(xs)
    ensures r == Connected ==> forall f, i {:trigger HasId(xs[i].output, f.id)} ::
              f in ObjectsOf(xs) && 0 <= i < |xs| && HasId(xs[i].output, f.id) ==> f.src == Some(xs[i].ranks)
    ensures r == Connected ==> forall f :: f in ObjectsOf(xs) ==>
              f.dst != null && f.dst.id == f.id && MadeBy(xs, |xs|, f.id)
                  && exists places :: Consumers(xs, f.id, places, f.dst.items)
    ensures r == Connected ==> forall f, g :: f in ObjectsOf(xs) && g in ObjectsOf(xs) && f.id == g.id ==>
              f.dst == g.dst
  {
    OutcomeMeaning(xs);
    SourcesAre(xs);
    r := Wire(xs);
    forall f | r == Connected && f in ObjectsOf(xs)
      ensures MadeBy(xs, |xs|, f.id) && exists places :: Consumers(xs, f.id, places, f.dst.items)
    {
      KeysMeaning(xs);
      var places := DestinationsAre(xs, f.id);
    }
  }

  method Wire(xs: seq<Execution>) returns (r: Outcome)
    requires forall f :: f in ObjectsOf(xs) ==> f.dst == null
    requires MadeOnce(Events(xs))
    modifies ObjectsOf(xs)
    ensures r == ValueError <==> !UsesOk(Events(xs))
    ensures r == AssertionError <==> UsesOk(Events(xs)) && !AllConsumed(Events(xs))
    ensures r == Connected ==> forall f :: f in ObjectsOf(xs) ==>
              && f.id in Sources(Events(xs)) && f.src == Some(Sources(Events(xs))[f.id])
              && f.dst != null && f.dst.id == f.id && f.dst.items == RanksOf(Events(xs), f.id)
    ensures r == Connected ==> forall f, g :: f in ObjectsOf(xs) && g in ObjectsOf(xs) && f.id == g.id ==>
              f.dst == g.dst
  {
    var w := new Wiring(ObjectsOf(xs));
    var ok := WireAll(w, xs);
    if !ok {
      return ValueError;
    }
    ok := w.Verify();
    if !ok {
      return AssertionError;
    }
    forall f | f in ObjectsOf(xs)
      ensures f.id in w.t.lists && f.id in w.t.sources && f.src == Some(w.t.sources[f.id]) && f.dst == w.t.lists[f.id]
      ensures f.dst.id == f.id
    {
      assert w.t.SeenOk(f) && w.t.IdOk(f.id);
    }
    r := Connected;
  }

  ghost predicate InAll(fs: seq<DataForward>, all: set<DataForward>) {
    forall k :: 0 <= k < |fs| ==> fs[k] in all
  }

  ghost function With(seen: set<DataForward>, fs: seq<DataForward>, k: nat): set<DataForward>
    requires k <= |fs|
  {
    if k == 0 then seen else With(seen, fs, k - 1) + {fs[k - 1]}
  }

  ghost function ObjectsOf(xs: seq<Execution>): set<DataForward> {
    if |xs| == 0 then {}
    else
      var x := xs[|xs| - 1];
      var fs, gs := Forwards(x.input), Forwards(x.output);
      With(With(ObjectsOf(xs[..|xs| - 1]), fs, |fs|), gs, |gs|)
  }

  /** They are the forwards that occur in an input or an output. */
  lemma {:induction false} ObjectsAre(xs: seq<Execution>, f: DataForward)
    ensures f in ObjectsOf(xs) <==>
            exists i {:trigger xs[i]} :: 0 <= i < |xs| && (Occurs(xs[i].input, f) || Occurs(xs[i].output, f))
  {
    if |xs| > 0 {
      var n, x := |xs| - 1, xs[|xs| - 1];
      ObjectsAre(xs[..n], f);
      forall i | 0 <= i < n ensures xs[..n][i] == xs[i] {}
      WithIs(ObjectsOf(xs[..n]), Forwards(x.input), |Forwards(x.input)|, f);
      WithIs(With(ObjectsOf(xs[..n]), Forwards(x.input), |Forwards(x.input)|), Forwards(x.output),
          |Forwards(x.output)|, f);
      FoundIffOccurs(x.input, f);
      FoundIffOccurs(x.output, f);
    }
  }

  lemma {:induction false} WithIs(seen: set<DataForward>, fs: seq<DataForward>, k: nat, f: DataForward)
    requires k <= |fs|
    ensures f in With(seen, fs, k) <==> f in seen || exists j :: 0 <= j < k && fs[j] == f
  {
    if k > 0 { WithIs(seen, fs, k - 1, f); }
  }

  lemma {:induction false} WithAll(seen: set<DataForward>, fs: seq<DataForward>, k: nat)
    requires k <= |fs|
    ensures seen <= With(seen, fs, k) && forall j :: 0 <= j < k ==> fs[j] in With(seen, fs, k)
  {
    if k > 0 { WithAll(seen, fs, k - 1); }
  }

  lemma {:induction false} ObjectsPrefix(xs: seq<Execution>, i: nat)
    requires 0 < i <= |xs|
    ensures ObjectsOf(xs[..i]) <= ObjectsOf(xs)
    ensures InAll(Forwards(xs[i - 1].input), ObjectsOf(xs)) && InAll(Forwards(xs[i - 1].output), ObjectsOf(xs))
    decreases |xs|
  {
    var front, x := xs[..|xs| - 1], xs[|xs| - 1];
    var fs, gs := Forwards(x.input), Forwards(x.output);
    WithAll(ObjectsOf(front), fs, |fs|);
    WithAll(With(ObjectsOf(front), fs, |fs|), gs, |gs|);
    if i < |xs| {
      ObjectsPrefix(front, i);
      assert front[..i] == xs[..i];
    } else {
      assert xs[..i] == xs;
    }
  }
}
