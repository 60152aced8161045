/**
 What a sequence of invocations makes and uses, as events on the ids of forwards, and what the dispatcher's
 errors and connections mean in terms of where the forwards occur.
*/
module DispatcherEvents {
  import opened Options
  import opened DispatcherTraversal

  datatype Execution = Execution(input: Value, output: Value, ranks: Ranks)

  // ---- what happens, as a sequence of events on ids ----

  datatype Event = Use(id: nat, ranks: Ranks) | Make(id: nat, ranks: Ranks)

  /** The events `evs` and then those of the first `k` forwards of an input. */
  function Uses(evs: seq<Event>, fs: seq<DataForward>, ranks: Ranks, k: nat): seq<Event>
    requires k <= |fs|
  {
    if k == 0 then evs else Uses(evs, fs, ranks, k - 1) + [Use(fs[k - 1].id, ranks)]
  }

  /** ... of an output. */
  function Makes(evs: seq<Event>, fs: seq<DataForward>, ranks: Ranks, k: nat): seq<Event>
    requires k <= |fs|
  {
    if k == 0 then evs else Makes(evs, fs, ranks, k - 1) + [Make(fs[k - 1].id, ranks)]
  }

  /** The invocations in order, and each one's input before its output. */
  function Events(xs: seq<Execution>): seq<Event> {
    if |xs| == 0 then []
    else
      var x := xs[|xs| - 1];
      var fs, gs := Forwards(x.input), Forwards(x.output);
      Makes(Uses(Events(xs[..|xs| - 1]), fs, x.ranks, |fs|), gs, x.ranks, |gs|)
  }

  /** The ranks of the producer of each id. */
  function Sources(evs: seq<Event>): map<nat, Ranks> {
    if |evs| == 0 then map[]
    else
      var e, m := evs[|evs| - 1], Sources(evs[..|evs| - 1]);
      if e.Make? then m[e.id := e.ranks] else m
  }

  /** The ranks of the consumers of each id, in order, one entry for each time that it is consumed. */
  function Destinations(evs: seq<Event>): map<nat, seq<Ranks>> {
    if |evs| == 0 then map[]
    else
      var e, m := evs[|evs| - 1], Destinations(evs[..|evs| - 1]);
      if e.Use? then m[e.id := (if e.id in m then m[e.id] else []) + [e.ranks]] else m
  }

  /** Everything that is consumed has been produced before. */
  predicate UsesOk(evs: seq<Event>) {
    |evs| == 0 || (UsesOk(evs[..|evs| - 1]) && (evs[|evs| - 1].Use? ==> evs[|evs| - 1].id in Sources(evs[..|evs| - 1])))
  }

  /** No id is produced twice. */
  predicate MadeOnce(evs: seq<Event>) {
    |evs| == 0 || (MadeOnce(evs[..|evs| - 1])
        && (evs[|evs| - 1].Make? ==> evs[|evs| - 1].id !in Sources(evs[..|evs| - 1])))
  }

  predicate AllConsumed(evs: seq<Event>) {
    Sources(evs).Keys <= Destinations(evs).Keys
  }

  lemma {:induction false} EventsPrefix(xs: seq<Execution>, i: nat)
    requires i <= |xs|
    ensures MadeOnce(Events(xs)) ==> MadeOnce(Events(xs[..i]))
    ensures UsesOk(Events(xs)) ==> UsesOk(Events(xs[..i]))
    decreases |xs|
  {
    if i < |xs| {
      var front, x := xs[..|xs| - 1], xs[|xs| - 1];
      var fs, gs := Forwards(x.input), Forwards(x.output);
      EventsPrefix(front, i);
      assert front[..i] == xs[..i];
      MakesFront(Uses(Events(front), fs, x.ranks, |fs|), gs, x.ranks, 0, |gs|);
      UsesFront(Events(front), fs, x.ranks, 0, |fs|);
    } else {
      assert xs[..i] == xs;
    }
  }

  lemma UsesStep(evs: seq<Event>, fs: seq<DataForward>, ranks: Ranks, k: nat)
    requires k < |fs|
    ensures UsesOk(Uses(evs, fs, ranks, |fs|)) ==> UsesOk(Uses(evs, fs, ranks, k + 1))
    ensures UsesOk(Uses(evs, fs, ranks, k)) ==>
              (UsesOk(Uses(evs, fs, ranks, k + 1)) <==> fs[k].id in Sources(Uses(evs, fs, ranks, k)))
  {
    var now := Uses(evs, fs, ranks, k);
    assert (now + [Use(fs[k].id, ranks)])[..|now|] == now;
    UsesFront(evs, fs, ranks, k + 1, |fs|);
  }

  lemma {:induction false} UsesFront(evs: seq<Event>, fs: seq<DataForward>, ranks: Ranks, j: nat, k: nat)
    requires j <= k <= |fs|
    ensures UsesOk(Uses(evs, fs, ranks, k)) ==> UsesOk(Uses(evs, fs, ranks, j))
    ensures MadeOnce(Uses(evs, fs, ranks, k)) ==> MadeOnce(Uses(evs, fs, ranks, j))
    decreases k
  {
    if j < k {
      var now := Uses(evs, fs, ranks, k - 1);
      assert (now + [Use(fs[k - 1].id, ranks)])[..|now|] == now;
      UsesFront(evs, fs, ranks, j, k - 1);
    }
  }

  lemma MakesStep(evs: seq<Event>, fs: seq<DataForward>, ranks: Ranks, k: nat)
    requires k < |fs| && MadeOnce(Makes(evs, fs, ranks, |fs|))
    ensures fs[k].id !in Sources(Makes(evs, fs, ranks, k))
  {
    var now := Makes(evs, fs, ranks, k);
    assert (now + [Make(fs[k].id, ranks)])[..|now|] == now;
    MakesFront(evs, fs, ranks, k + 1, |fs|);
  }

  lemma {:induction false} MakesKeepUses(evs: seq<Event>, fs: seq<DataForward>, ranks: Ranks, k: nat)
    requires k <= |fs| && UsesOk(evs)
    ensures UsesOk(Makes(evs, fs, ranks, k))
  {
    if k > 0 {
      MakesKeepUses(evs, fs, ranks, k - 1);
      var now := Makes(evs, fs, ranks, k - 1);
      assert (now + [Make(fs[k - 1].id, ranks)])[..|now|] == now;
    }
  }

  lemma {:induction false} MakesFront(evs: seq<Event>, fs: seq<DataForward>, ranks: Ranks, j: nat, k: nat)
    requires j <= k <= |fs|
    ensures UsesOk(Makes(evs, fs, ranks, k)) ==> UsesOk(Makes(evs, fs, ranks, j))
    ensures MadeOnce(Makes(evs, fs, ranks, k)) ==> MadeOnce(Makes(evs, fs, ranks, j))
    decreases k
  {
    if j < k {
      var now := Makes(evs, fs, ranks, k - 1);
      assert (now + [Make(fs[k - 1].id, ranks)])[..|now|] == now;
      MakesFront(evs, fs, ranks, j, k - 1);
    }
  }

  lemma UseNext(evs: seq<Event>, id: nat, ranks: Ranks)
    ensures Sources(evs + [Use(id, ranks)]) == Sources(evs)
    ensures var m := Destinations(evs);
              Destinations(evs + [Use(id, ranks)]) == m[id := (if id in m then m[id] else []) + [ranks]]
  {
    assert (evs + [Use(id, ranks)])[..|evs|] == evs;
  }

  lemma MakeNext(evs: seq<Event>, id: nat, ranks: Ranks)
    ensures Sources(evs + [Make(id, ranks)]) == Sources(evs)[id := ranks]
    ensures Destinations(evs + [Make(id, ranks)]) == Destinations(evs)
  {
    assert (evs + [Make(id, ranks)])[..|evs|] == evs;
  }

  function Ids(fs: seq<DataForward>, k: nat): set<nat>
    requires k <= |fs|
  {
    if k == 0 then {} else Ids(fs, k - 1) + {fs[k - 1].id}
  }

  lemma {:induction false} UsesMeaning(evs: seq<Event>, fs: seq<DataForward>, ranks: Ranks, k: nat)
    requires k <= |fs|
    ensures var us := Uses(evs, fs, ranks, k);
            && Sources(us) == Sources(evs) && Destinations(us).Keys == Destinations(evs).Keys + Ids(fs, k)
            && (UsesOk(us) <==> UsesOk(evs) && Ids(fs, k) <= Sources(evs).Keys)
  {
    if k > 0 {
      UsesMeaning(evs, fs, ranks, k - 1);
      var now := Uses(evs, fs, ranks, k - 1);
      UseNext(now, fs[k - 1].id, ranks);
      assert (now + [Use(fs[k - 1].id, ranks)])[..|now|] == now;
    }
  }

  lemma {:induction false} MakesMeaning(evs: seq<Event>, fs: seq<DataForward>, ranks: Ranks, k: nat)
    requires k <= |fs|
    ensures var ms := Makes(evs, fs, ranks, k);
            && Sources(ms).Keys == Sources(evs).Keys + Ids(fs, k) && Destinations(ms) == Destinations(evs)
            && (UsesOk(ms) <==> UsesOk(evs))
  {
    if k > 0 {
      MakesMeaning(evs, fs, ranks, k - 1);
      var now := Makes(evs, fs, ranks, k - 1);
      MakeNext(now, fs[k - 1].id, ranks);
      assert (now + [Make(fs[k - 1].id, ranks)])[..|now|] == now;
    }
  }

  // ---- in terms of where the forwards occur ----

  /** One of the first `n` invocations produces `id`. */
  ghost predicate MadeBy(xs: seq<Execution>, n: nat, id: nat)
    requires n <= |xs|
  {
    exists j {:trigger xs[j]} :: 0 <= j < n && HasId(xs[j].output, id)
  }

  ghost predicate UsedBy(xs: seq<Execution>, id: nat) {
    exists j {:trigger xs[j]} :: 0 <= j < |xs| && HasId(xs[j].input, id)
  }

  /** Whatever invocation `i` consumes is produced by an earlier one. */
  ghost predicate FedAt(xs: seq<Execution>, i: nat)
    requires i < |xs|
  {
    forall id {:trigger HasId(xs[i].input, id)} :: HasId(xs[i].input, id) ==> MadeBy(xs, i, id)
  }

  ghost predicate AllFed(xs: seq<Execution>) {
    forall i {:trigger FedAt(xs, i)} :: 0 <= i < |xs| ==> FedAt(xs, i)
  }

  /** Whatever is produced is consumed by some invocation. */
  ghost predicate NoneLost(xs: seq<Execution>) {
    forall id {:trigger UsedBy(xs, id)} :: MadeBy(xs, |xs|, id) ==> UsedBy(xs, id)
  }

  lemma {:induction false} InIds(fs: seq<DataForward>, k: nat, id: nat)
    requires k <= |fs|
    ensures id in Ids(fs, k) <==> exists j :: 0 <= j < k && fs[j].id == id
  {
    if k > 0 { InIds(fs, k - 1, id); }
  }

  lemma IdsOccur(v: Value, id: nat)
    ensures id in Ids(Forwards(v), |Forwards(v)|) <==> HasId(v, id)
  {
    var fs := Forwards(v);
    var paths := Traversal(v);
    InIds(fs, |fs|, id);
    if path :| HasAt(v, path, id) {
      var j :| 0 <= j < |paths| && paths[j] == path;
      assert fs[j].id == id;
    }
    forall j | 0 <= j < |fs| ensures HasAt(v, paths[j], fs[j].id) {}
  }

  lemma FrontMade(xs: seq<Execution>, n: nat, id: nat)
    requires |xs| > 0 && n < |xs|
    ensures MadeBy(xs[..|xs| - 1], n, id) == MadeBy(xs, n, id)
  {
    var front := xs[..|xs| - 1];
    forall j | 0 <= j < n ensures front[j] == xs[j] {}
  }

  /** What is produced and consumed, with one more invocation. */
  lemma MadeSnoc(xs: seq<Execution>, id: nat)
    requires |xs| > 0
    ensures var front, x := xs[..|xs| - 1], xs[|xs| - 1];
            && (MadeBy(xs, |xs|, id) <==> MadeBy(front, |front|, id) || HasId(x.output, id))
            && (UsedBy(xs, id) <==> UsedBy(front, id) || HasId(x.input, id))
  {
    var front := xs[..|xs| - 1];
    forall j | 0 <= j < |front| ensures front[j] == xs[j] {}
  }

  lemma FedSnoc(xs: seq<Execution>)
    requires |xs| > 0
    ensures AllFed(xs) <==> AllFed(xs[..|xs| - 1]) && FedAt(xs, |xs| - 1)
  {
    var front := xs[..|xs| - 1];
    forall i | 0 <= i < |front| ensures FedAt(front, i) == FedAt(xs, i) {
      assert front[i] == xs[i];
      forall id ensures MadeBy(front, i, id) == MadeBy(xs, i, id) { FrontMade(xs, i, id); }
    }
    assert AllFed(xs) ==> FedAt(xs, |xs| - 1);
  }

  lemma {:induction false} KeysMeaning(xs: seq<Execution>)
    ensures forall id :: id in Sources(Events(xs)) <==> MadeBy(xs, |xs|, id)
    ensures forall id :: id in Destinations(Events(xs)) <==> UsedBy(xs, id)
    ensures UsesOk(Events(xs)) <==> AllFed(xs)
  {
    if |xs| > 0 {
      var front, x := xs[..|xs| - 1], xs[|xs| - 1];
      var fs, gs := Forwards(x.input), Forwards(x.output);
      KeysMeaning(front);
      UsesMeaning(Events(front), fs, x.ranks, |fs|);
      MakesMeaning(Uses(Events(front), fs, x.ranks, |fs|), gs, x.ranks, |gs|);
      forall id
        ensures id in Ids(fs, |fs|) <==> HasId(x.input, id)
        ensures id in Ids(gs, |gs|) <==> HasId(x.output, id)
        ensures MadeBy(front, |front|, id) == MadeBy(xs, |front|, id)
        ensures MadeBy(xs, |xs|, id) <==> MadeBy(front, |front|, id) || HasId(x.output, id)
        ensures UsedBy(xs, id) <==> UsedBy(front, id) || HasId(x.input, id)
      {
        IdsOccur(x.input, id);
        IdsOccur(x.output, id);
        FrontMade(xs, |front|, id);
        MadeSnoc(xs, id);
      }
      FedSnoc(xs);
    }
  }

  /**
   The loop fails exactly on a forward in an input whose id is in no earlier invocation's output; the check
   after it, on one in an output whose id is in no input.
  */
  lemma OutcomeMeaning(xs: seq<Execution>)
    ensures UsesOk(Events(xs)) <==> AllFed(xs)
    ensures AllConsumed(Events(xs)) <==> NoneLost(xs)
  {
    KeysMeaning(xs);
  }

  // ---- whose ranks a forward gets ----

  /** A place in the input or output of invocation `i`. */
  datatype Place = Place(i: nat, path: seq<nat>)

  predicate Earlier(q: Place, r: Place) { q.i < r.i || (q.i == r.i && Before(q.path, r.path)) }

  predicate IsUse(xs: seq<Execution>, id: nat, q: Place) { q.i < |xs| && HasAt(xs[q.i].input, q.path, id) }

  predicate IsMake(xs: seq<Execution>, id: nat, q: Place) { q.i < |xs| && HasAt(xs[q.i].output, q.path, id) }

  /** `places` are all places of inputs with `id`, in order, and `ranks` the ranks of their invocations. */
  ghost predicate Consumers(xs: seq<Execution>, id: nat, places: seq<Place>, ranks: seq<Ranks>) {
    && |places| == |ranks|
    && (forall m :: 0 <= m < |places| ==> IsUse(xs, id, places[m]) && ranks[m] == xs[places[m].i].ranks)
    && (forall l, m :: 0 <= l < m < |places| ==> Earlier(places[l], places[m]))
    && (forall q {:trigger IsUse(xs, id, q)} :: IsUse(xs, id, q) ==> q in places)
  }

  function RanksOf(evs: seq<Event>, id: nat): seq<Ranks> {
    if id in Destinations(evs) then Destinations(evs)[id] else []
  }

  /** Of the last input, only the places in `some`. */
  ghost predicate ConsumersSoFar(xs: seq<Execution>, id: nat, some: seq<seq<nat>>, places: seq<Place>,
          ranks: seq<Ranks>) {
    && |xs| > 0 && |places| == |ranks|
    && (forall m :: 0 <= m < |places| ==> IsUse(xs, id, places[m]) && ranks[m] == xs[places[m].i].ranks)
    && (forall l, m :: 0 <= l < m < |places| ==> Earlier(places[l], places[m]))
    && (forall q {:trigger IsUse(xs, id, q)} :: IsUse(xs, id, q) && q.i < |xs| - 1 ==> q in places)
    && (forall path :: path in some && HasAt(xs[|xs| - 1].input, path, id) ==> Place(|xs| - 1, path) in places)
    && (forall q :: q in places ==> q.i < |xs| - 1 || q.path in some)
  }

  lemma NoneSoFar(xs: seq<Execution>, id: nat, places: seq<Place>, ranks: seq<Ranks>)
    requires |xs| > 0 && Consumers(xs[..|xs| - 1], id, places, ranks)
    ensures ConsumersSoFar(xs, id, [], places, ranks)
  {
    var front := xs[..|xs| - 1];
    forall q: Place | q.i < |front| ensures IsUse(front, id, q) == IsUse(xs, id, q) { assert front[q.i] == xs[q.i]; }
    forall m | 0 <= m < |places| ensures IsUse(xs, id, places[m]) && places[m].i < |front| {
      assert IsUse(front, id, places[m]);
    }
  }

  lemma OneMoreUse(xs: seq<Execution>, id: nat, some: seq<seq<nat>>, places: seq<Place>, ranks: seq<Ranks>,
          path: seq<nat>)
    requires ConsumersSoFar(xs, id, some, places, ranks) && forall p :: p in some ==> Before(p, path)
    ensures var x := xs[|xs| - 1];
            if HasAt(x.input, path, id)
            then ConsumersSoFar(xs, id, some + [path], places + [Place(|xs| - 1, path)], ranks + [x.ranks])
            else ConsumersSoFar(xs, id, some + [path], places, ranks)
  {
    var q := Place(|xs| - 1, path);
    forall l | 0 <= l < |places| ensures Earlier(places[l], q) { assert places[l] in places && places[l].i < |xs|; }
    assert HasAt(xs[|xs| - 1].input, path, id) ==> IsUse(xs, id, q);
  }

  /** One more forward is used. */
  lemma RanksNext(evs: seq<Event>, used: nat, ranks: Ranks, id: nat)
    ensures RanksOf(evs + [Use(used, ranks)], id) == RanksOf(evs, id) + if used == id then [ranks] else []
  {
    UseNext(evs, used, ranks);
  }

  lemma OneMoreForward(xs: seq<Execution>, id: nat, paths: seq<seq<nat>>, k: nat, places: seq<Place>,
          ranks: seq<Ranks>)
    returns (places': seq<Place>)
    requires |xs| > 0 && k < |paths| && (forall j :: 0 <= j < k ==> Before(paths[j], paths[k]))
    requires ConsumersSoFar(xs, id, paths[..k], places, ranks)
    ensures var x := xs[|xs| - 1];
            ConsumersSoFar(xs, id, paths[..k + 1], places',
                ranks + if HasAt(x.input, paths[k], id) then [x.ranks] else [])
  {
    OneMoreUse(xs, id, paths[..k], places, ranks, paths[k]);
    assert paths[..k + 1] == paths[..k] + [paths[k]];
    places' := if HasAt(xs[|xs| - 1].input, paths[k], id) then places + [Place(|xs| - 1, paths[k])] else places;
    assert ranks + [] == ranks;
  }

  lemma {:induction false} LastConsumers(xs: seq<Execution>, id: nat, evs: seq<Event>, before: seq<Place>,
          fs: seq<DataForward>, paths: seq<seq<nat>>, k: nat)
    returns (places: seq<Place>)
    requires |xs| > 0 && k <= |paths| && Traverses(xs[|xs| - 1].input, fs, paths)
    requires ConsumersSoFar(xs, id, [], before, RanksOf(evs, id))
    ensures ConsumersSoFar(xs, id, paths[..k], places, RanksOf(Uses(evs, fs, xs[|xs| - 1].ranks, k), id))
  {
    var x := xs[|xs| - 1];
    if k == 0 {
      places := before;
      assert paths[..0] == [];
    } else {
      var some := LastConsumers(xs, id, evs, before, fs, paths, k - 1);
      var now := Uses(evs, fs, x.ranks, k - 1);
      RanksNext(now, fs[k - 1].id, x.ranks, id);
      assert At(x.input, paths[k - 1]) == Some(fs[k - 1]);
      places := OneMoreForward(xs, id, paths, k - 1, some, RanksOf(now, id));
    }
  }

  lemma SoFarIsAll(xs: seq<Execution>, id: nat, some: seq<seq<nat>>, places: seq<Place>, ranks: seq<Ranks>)
    requires ConsumersSoFar(xs, id, some, places, ranks)
    requires forall path {:trigger At(xs[|xs| - 1].input, path)} :: At(xs[|xs| - 1].input, path).Some? ==> path in some
    ensures Consumers(xs, id, places, ranks)
  {
    forall q | IsUse(xs, id, q) ensures q in places {
      if q.i == |xs| - 1 {
        assert q.path in some && q == Place(|xs| - 1, q.path);
      }
    }
  }

  /** What an invocation produces changes no destinations. */
  lemma LastRanks(xs: seq<Execution>, id: nat)
    requires |xs| > 0
    ensures var n, x := |xs| - 1, xs[|xs| - 1];
            RanksOf(Events(xs), id)
            == RanksOf(Uses(Events(xs[..n]), Forwards(x.input), x.ranks, |Forwards(x.input)|), id)
  {
    var n, x := |xs| - 1, xs[|xs| - 1];
    var fs, gs := Forwards(x.input), Forwards(x.output);
    MakesMeaning(Uses(Events(xs[..n]), fs, x.ranks, |fs|), gs, x.ranks, |gs|);
  }

  lemma OneMoreInvocation(xs: seq<Execution>, id: nat, before: seq<Place>) returns (places: seq<Place>)
    requires |xs| > 0 && Consumers(xs[..|xs| - 1], id, before, RanksOf(Events(xs[..|xs| - 1]), id))
    ensures Consumers(xs, id, places, RanksOf(Events(xs), id))
  {
    var n, x := |xs| - 1, xs[|xs| - 1];
    var evs := Events(xs[..n]);
    var paths := Traversal(x.input);
    NoneSoFar(xs, id, before, RanksOf(evs, id));
    places := LastConsumers(xs, id, evs, before, Forwards(x.input), paths, |paths|);
    assert paths[..|paths|] == paths;
    LastRanks(xs, id);
    SoFarIsAll(xs, id, paths, places, RanksOf(Events(xs), id));
  }

  /** The destinations of an id are the ranks of its consumers, in order, one entry for each place. */
  lemma {:induction false} DestinationsAre(xs: seq<Execution>, id: nat) returns (places: seq<Place>)
    ensures Consumers(xs, id, places, RanksOf(Events(xs), id))
  {
    if |xs| == 0 {
      places := [];
    } else {
      var before := DestinationsAre(xs[..|xs| - 1], id);
      places := OneMoreInvocation(xs, id, before);
    }
  }

  predicate Distinct(fs: seq<DataForward>, k: nat)
    requires k <= |fs|
  {
    k == 0 || (Distinct(fs, k - 1) && fs[k - 1].id !in Ids(fs, k - 1))
  }

  lemma {:induction false} MakesSources(evs: seq<Event>, fs: seq<DataForward>, ranks: Ranks, k: nat)
    requires k <= |fs|
    ensures var ms := Makes(evs, fs, ranks, k);
            && Sources(ms).Keys == Sources(evs).Keys + Ids(fs, k)
            && forall id :: id in Sources(ms) ==>
                 Sources(ms)[id] == if id in Ids(fs, k) then ranks else Sources(evs)[id]
  {
    if k > 0 {
      MakesSources(evs, fs, ranks, k - 1);
      MakeNext(Makes(evs, fs, ranks, k - 1), fs[k - 1].id, ranks);
    }
  }

  lemma {:induction false} MakesOnce(evs: seq<Event>, fs: seq<DataForward>, ranks: Ranks, k: nat)
    requires k <= |fs|
    ensures MadeOnce(Makes(evs, fs, ranks, k)) <==>
            MadeOnce(evs) && Distinct(fs, k) && Ids(fs, k) !! Sources(evs).Keys
  {
    if k > 0 {
      MakesOnce(evs, fs, ranks, k - 1);
      MakesSources(evs, fs, ranks, k - 1);
      var now := Makes(evs, fs, ranks, k - 1);
      assert (now + [Make(fs[k - 1].id, ranks)])[..|now|] == now;
    }
  }

  lemma {:induction false} UsesMakeNothing(evs: seq<Event>, fs: seq<DataForward>, ranks: Ranks, k: nat)
    requires k <= |fs|
    ensures Sources(Uses(evs, fs, ranks, k)) == Sources(evs) && MadeOnce(Uses(evs, fs, ranks, k)) == MadeOnce(evs)
  {
    if k > 0 {
      UsesMakeNothing(evs, fs, ranks, k - 1);
      var now := Uses(evs, fs, ranks, k - 1);
      UseNext(now, fs[k - 1].id, ranks);
      assert (now + [Use(fs[k - 1].id, ranks)])[..|now|] == now;
    }
  }

  lemma {:induction false} DistinctIs(fs: seq<DataForward>, k: nat)
    requires k <= |fs|
    ensures Distinct(fs, k) <==> forall i, j :: 0 <= i < j < k ==> fs[i].id != fs[j].id
  {
    if k > 0 {
      DistinctIs(fs, k - 1);
      InIds(fs, k - 1, fs[k - 1].id);
    }
  }

  /** No id occurs twice in `v`. */
  ghost predicate OnceIn(v: Value) {
    forall p, q {:trigger At(v, p), At(v, q)} :: At(v, p).Some? && At(v, q).Some? && p != q ==>
      At(v, p).value.id != At(v, q).value.id
  }

  lemma DistinctOccur(v: Value)
    ensures Distinct(Forwards(v), |Forwards(v)|) <==> OnceIn(v)
  {
    var fs := Forwards(v);
    var paths := Traversal(v);
    DistinctIs(fs, |fs|);
    forall i, j | 0 <= i < j < |fs| ensures paths[i] != paths[j] { NotBeforeItself(paths[i]); }
    forall p, q | Distinct(fs, |fs|) && At(v, p).Some? && At(v, q).Some? && p != q
      ensures At(v, p).value.id != At(v, q).value.id
    {
      var i :| 0 <= i < |paths| && paths[i] == p;
      var j :| 0 <= j < |paths| && paths[j] == q;
      if i < j { assert fs[i].id != fs[j].id; } else { assert fs[j].id != fs[i].id; }
    }
    forall i, j | OnceIn(v) && 0 <= i < j < |fs| ensures fs[i].id != fs[j].id {
      assert At(v, paths[i]).Some? && At(v, paths[j]).Some?;
    }
  }

  /** No id is produced at two places. */
  ghost predicate OneProducer(xs: seq<Execution>) {
    && (forall i {:trigger xs[i]} :: 0 <= i < |xs| ==> OnceIn(xs[i].output))
    && (forall i, id {:trigger HasId(xs[i].output, id)} :: 0 <= i < |xs| && HasId(xs[i].output, id) ==>
          !MadeBy(xs, i, id))
  }

  lemma OneProducerSnoc(xs: seq<Execution>)
    requires |xs| > 0
    ensures var n, x := |xs| - 1, xs[|xs| - 1];
            OneProducer(xs) <==>
            OneProducer(xs[..n]) && OnceIn(x.output) && forall id :: HasId(x.output, id) ==> !MadeBy(xs[..n], n, id)
  {
    var n := |xs| - 1;
    var front := xs[..n];
    forall i, id | 0 <= i <= n ensures MadeBy(front, i, id) == MadeBy(xs, i, id) { FrontMade(xs, i, id); }
    forall i | 0 <= i < n ensures front[i] == xs[i] {}
    if OneProducer(xs) { assert OnceIn(xs[n].output); }
  }

  /** The events make an id once exactly if one place does, and its source is the ranks of that invocation. */
  lemma {:induction false} SourcesAre(xs: seq<Execution>)
    ensures MadeOnce(Events(xs)) <==> OneProducer(xs)
    ensures MadeOnce(Events(xs)) ==> forall i, id {:trigger HasId(xs[i].output, id)} ::
              0 <= i < |xs| && HasId(xs[i].output, id) ==>
                id in Sources(Events(xs)) && Sources(Events(xs))[id] == xs[i].ranks
  {
    if |xs| > 0 {
      var n, x := |xs| - 1, xs[|xs| - 1];
      var front := xs[..n];
      var fs, gs := Forwards(x.input), Forwards(x.output);
      SourcesAre(front);
      KeysMeaning(front);
      UsesMakeNothing(Events(front), fs, x.ranks, |fs|);
      MakesSources(Uses(Events(front), fs, x.ranks, |fs|), gs, x.ranks, |gs|);
      MakesOnce(Uses(Events(front), fs, x.ranks, |fs|), gs, x.ranks, |gs|);
      DistinctOccur(x.output);
      forall id ensures id in Ids(gs, |gs|) <==> HasId(x.output, id) { IdsOccur(x.output, id); }
      OneProducerSnoc(xs);
      forall i, id | MadeOnce(Events(xs)) && 0 <= i < n && HasId(xs[i].output, id)
        ensures id in Sources(Events(xs)) && Sources(Events(xs))[id] == xs[i].ranks
      {
        assert HasId(front[i].output, id) && MadeBy(front, n, id);
      }
    }
  }
}
