/** The forwards in a task's input or output, and the order in which the dispatcher finds them. */
module DispatcherTraversal {
  import opened Options

  type Ranks = seq<int>

  /** A Python list that several forwards refer to, all of the same `id`. */
  class RankList {
    ghost const id: nat
    var items: seq<Ranks>

    constructor (ghost id: nat)
      ensures items == [] && this.id == id
    {
      this.id, items := id, [];
    }
  }

  class DataForward {
    const id: nat
    var src: Option<Ranks>
    var dst: RankList?  // null stands for None

    constructor (id: nat)
      ensures this.id == id && src == None && dst == null
    {
      this.id, src, dst := id, None, null;
    }
  }

  /** A task's input or output: `Many` is a list, tuple, dict or model. */
  datatype Value = Other | Forward(f: DataForward) | Many(items: seq<Value>)

  /** iter_data_forwards */
  function Forwards(v: Value): seq<DataForward> {
    match v
    case Other => []
    case Forward(f) => [f]
    case Many(items) => AllForwards(items)
  }

  function AllForwards(vs: seq<Value>): seq<DataForward> {
    if |vs| == 0 then [] else Forwards(vs[0]) + AllForwards(vs[1..])
  }

  // ---- what it finds ----

  /** The forward at `path`, which says which item to take at each level. */
  function At(v: Value, path: seq<nat>): Option<DataForward>
    decreases |path|
  {
    match v
    case Other => None
    case Forward(f) => if |path| == 0 then Some(f) else None
    case Many(items) => if |path| > 0 && path[0] < |items| then At(items[path[0]], path[1..]) else None
  }

  predicate HasAt(v: Value, path: seq<nat>, id: nat) {
    At(v, path).Some? && At(v, path).value.id == id
  }

  ghost predicate Occurs(v: Value, f: DataForward) {
    exists path :: At(v, path) == Some(f)
  }

  /** A forward with `id` occurs in `v`. */
  ghost predicate HasId(v: Value, id: nat) {
    exists path :: HasAt(v, path, id)
  }

  /** Where two paths part, the first one takes an earlier item. */
  predicate Before(p: seq<nat>, q: seq<nat>)
    decreases |p|
  {
    |p| > 0 && |q| > 0 && (p[0] < q[0] || (p[0] == q[0] && Before(p[1..], q[1..])))
  }

  /** `paths` are all places of `v` with a forward, from first to last, and `fs` the forwards there. */
  ghost predicate Traverses(v: Value, fs: seq<DataForward>, paths: seq<seq<nat>>) {
    && |paths| == |fs| && (forall k :: 0 <= k < |fs| ==> At(v, paths[k]) == Some(fs[k]))
    && (forall j, k :: 0 <= j < k < |paths| ==> Before(paths[j], paths[k]))
    && (forall path {:trigger At(v, path)} :: At(v, path).Some? ==> path in paths)
  }

  /** Every place is visited once, in order. */
  lemma {:induction false} Traversal(v: Value) returns (paths: seq<seq<nat>>)
    ensures Traverses(v, Forwards(v), paths)
  {
    match v
    case Other => paths := [];
    case Forward(f) => paths := [[]];
    case Many(items) => paths := ItemsTraversal(items);
  }

  lemma {:induction false} ItemsTraversal(vs: seq<Value>) returns (paths: seq<seq<nat>>)
    ensures Traverses(Many(vs), AllForwards(vs), paths)
  {
    if |vs| == 0 {
      paths := [];
    } else {
      var a := Traversal(vs[0]);
      var b := ItemsTraversal(vs[1..]);
      OneMore(vs, Forwards(vs[0]), a, AllForwards(vs[1..]), b);
      paths := AllInFirst(a) + AllInRest(b);
    }
  }

  /** A place of the first item, and one of the other items, as places of all of them. */
  function InFirst(p: seq<nat>): seq<nat> { [0] + p }

  function InRest(p: seq<nat>): seq<nat>
    requires |p| > 0
  {
    [p[0] + 1] + p[1..]
  }

  lemma AtInFirst(vs: seq<Value>, p: seq<nat>)
    requires |vs| > 0
    ensures At(Many(vs), InFirst(p)) == At(vs[0], p)
  {
    assert InFirst(p)[1..] == p;
  }

  lemma AtInRest(vs: seq<Value>, p: seq<nat>)
    requires |vs| > 0 && |p| > 0
    ensures At(Many(vs), InRest(p)) == At(Many(vs[1..]), p)
  {
    var q, rest := InRest(p), vs[1..];
    assert q[0] == p[0] + 1 && q[1..] == p[1..];
    if p[0] < |rest| { assert rest[p[0]] == vs[q[0]]; }
    AtItem(vs, q);
    AtItem(rest, p);
  }

  lemma AtItem(vs: seq<Value>, p: seq<nat>)
    requires |p| > 0
    ensures At(Many(vs), p) == if p[0] < |vs| then At(vs[p[0]], p[1..]) else None
  {
  }

  lemma OrderInFirst(p: seq<nat>, q: seq<nat>)
    ensures Before(InFirst(p), InFirst(q)) == Before(p, q)
  {
    assert InFirst(p)[1..] == p && InFirst(q)[1..] == q;
  }

  lemma OrderInRest(p: seq<nat>, q: seq<nat>)
    requires |p| > 0 && |q| > 0
    ensures Before(InRest(p), InRest(q)) == Before(p, q)
  {
    assert InRest(p)[1..] == p[1..] && InRest(q)[1..] == q[1..];
  }

  function AllInFirst(a: seq<seq<nat>>): (r: seq<seq<nat>>)
    ensures |r| == |a| && forall k :: 0 <= k < |a| ==> r[k] == InFirst(a[k])
  {
    seq(|a|, k requires 0 <= k < |a| => InFirst(a[k]))
  }

  function AllInRest(b: seq<seq<nat>>): (r: seq<seq<nat>>)
    requires forall k :: 0 <= k < |b| ==> |b[k]| > 0
    ensures |r| == |b| && forall k :: 0 <= k < |b| ==> r[k] == InRest(b[k])
  {
    seq(|b|, k requires 0 <= k < |b| => InRest(b[k]))
  }

  lemma OneMore(vs: seq<Value>, fs: seq<DataForward>, a: seq<seq<nat>>, gs: seq<DataForward>, b: seq<seq<nat>>)
    requires |vs| > 0 && Traverses(vs[0], fs, a) && Traverses(Many(vs[1..]), gs, b)
    ensures forall k :: 0 <= k < |b| ==> |b[k]| > 0
    ensures Traverses(Many(vs), fs + gs, AllInFirst(a) + AllInRest(b))
  {
    forall k | 0 <= k < |b| ensures |b[k]| > 0 { assert At(Many(vs[1..]), b[k]).Some?; }
    var paths := AllInFirst(a) + AllInRest(b);
    forall k | 0 <= k < |paths| ensures At(Many(vs), paths[k]) == Some((fs + gs)[k]) {
      if k < |a| { AtInFirst(vs, a[k]); } else { AtInRest(vs, b[k - |a|]); }
    }
    BothOrdered(a, b);
    forall path | At(Many(vs), path).Some? ensures path in paths { PlaceIsListed(vs, a, b, path); }
  }

  lemma BothOrdered(a: seq<seq<nat>>, b: seq<seq<nat>>)
    requires forall j, k :: 0 <= j < k < |a| ==> Before(a[j], a[k])
    requires forall j, k :: 0 <= j < k < |b| ==> Before(b[j], b[k])
    requires forall k :: 0 <= k < |b| ==> |b[k]| > 0
    ensures var paths := AllInFirst(a) + AllInRest(b);
            forall j, k :: 0 <= j < k < |paths| ==> Before(paths[j], paths[k])
  {
    var paths := AllInFirst(a) + AllInRest(b);
    forall j, k | 0 <= j < k < |paths| ensures Before(paths[j], paths[k]) {
      if k < |a| {
        OrderInFirst(a[j], a[k]);
      } else if j >= |a| {
        OrderInRest(b[j - |a|], b[k - |a|]);
      }
    }
  }

  lemma PlaceIsListed(vs: seq<Value>, a: seq<seq<nat>>, b: seq<seq<nat>>, path: seq<nat>)
    requires |vs| > 0 && At(Many(vs), path).Some? && forall k :: 0 <= k < |b| ==> |b[k]| > 0
    requires At(vs[0], path[1..]).Some? ==> path[1..] in a
    requires forall p {:trigger At(Many(vs[1..]), p)} :: At(Many(vs[1..]), p).Some? ==> p in b
    ensures path in AllInFirst(a) + AllInRest(b)
  {
    if path[0] == 0 {
      assert path == InFirst(path[1..]);
      var k :| 0 <= k < |a| && a[k] == path[1..];
      assert AllInFirst(a)[k] == path;
    } else {
      var rest := [path[0] - 1] + path[1..];
      assert path == InRest(rest);
      AtInRest(vs, rest);
      var k :| 0 <= k < |b| && b[k] == rest;
      assert AllInRest(b)[k] == path;
    }
  }

  /** A forward is found exactly if it occurs, and in a list, a dict or a model it occurs where an item has it. */
  lemma FoundIffOccurs(v: Value, f: DataForward)
    ensures f in Forwards(v) <==> Occurs(v, f)
    ensures v.Many? ==>
              (Occurs(v, f) <==> exists i {:trigger v.items[i]} :: 0 <= i < |v.items| && Occurs(v.items[i], f))
  {
    var paths := Traversal(v);
    if v.Many? {
      forall path | At(v, path) == Some(f) ensures Occurs(v.items[path[0]], f) {
        assert At(v.items[path[0]], path[1..]) == Some(f);
      }
      forall i, path | 0 <= i < |v.items| && At(v.items[i], path) == Some(f) ensures At(v, [i] + path) == Some(f) {
        assert ([i] + path)[1..] == path;
      }
    }
  }

  /** No path comes twice. */
  lemma {:induction false} NotBeforeItself(p: seq<nat>)
    ensures !Before(p, p)
  {
    if |p| > 0 { NotBeforeItself(p[1..]); }
  }
}
