/**
 Eric's request queue and batching scheduler. The queue is two insertion-ordered dictionaries: the
 order of the first is `keys`, and `done` holds one flag per data item.
*/
module EricScheduler {
  import opened Options

  /** Identifiers are only ever compared, so numbers stand for the source's strings. */
  type ID = nat

  datatype Data = Data(id: ID, modality: ID, model: ID)

  datatype Request = Request(id: ID, data: seq<Data>)

  datatype Item = Item(request: ID, data: Data)

  /** The queue's contents. */
  datatype Queue = Queue(keys: seq<ID>, requests: map<ID, Request>, done: map<ID, map<ID, bool>>)
  {
    /** Items that have not run, in arrival order. */
    function Waiting(): (w: seq<Item>)
      requires AllKnown(keys, requests, done)
    {
      WaitingOf(keys, requests, done)
    }
  }

  ghost predicate ValidQueue(q: Queue) {
    && (forall a, b :: 0 <= a < b < |q.keys| ==> q.keys[a] != q.keys[b])
    && (forall k :: k in q.requests <==> k in q.keys)
    && (forall k :: k in q.done <==> k in q.keys)
    && (forall k :: k in q.keys ==> Tracked(k, q.requests[k], q.done[k]))
    && AllKnown(q.keys, q.requests, q.done)
  }

  /** A queued request has a flag for each of its items and for nothing else, and some item is left to run. */
  ghost predicate Tracked(k: ID, r: Request, flags: map<ID, bool>) {
    r.id == k && WellFormed(r) && flags.Keys == DataIds(r.data) && !AllTrue(flags)
  }

  predicate AllTrue(flags: map<ID, bool>) {
    forall d :: d in flags ==> flags[d]
  }

  function DataIds(data: seq<Data>): set<ID> {
    set d | d in data :: d.id
  }

  predicate Flagged(data: seq<Data>, flags: map<ID, bool>) {
    forall i :: 0 <= i < |data| ==> data[i].id in flags
  }

  predicate Known(k: ID, requests: map<ID, Request>, done: map<ID, map<ID, bool>>) {
    k in requests && k in done && Flagged(requests[k].data, done[k])
  }

  predicate AllKnown(keys: seq<ID>, requests: map<ID, Request>, done: map<ID, map<ID, bool>>) {
    forall i :: 0 <= i < |keys| ==> Known(keys[i], requests, done)
  }

  lemma TrackedIsKnown(q: Queue)
    requires forall k :: k in q.requests <==> k in q.keys
    requires forall k :: k in q.done <==> k in q.keys
    requires forall k :: k in q.keys ==> Tracked(k, q.requests[k], q.done[k])
    ensures AllKnown(q.keys, q.requests, q.done)
  {
    forall i | 0 <= i < |q.keys| ensures Known(q.keys[i], q.requests, q.done) {
      var k := q.keys[i];
      assert Tracked(k, q.requests[k], q.done[k]);
      forall j | 0 <= j < |q.requests[k].data| ensures q.requests[k].data[j].id in q.done[k] {
        assert q.requests[k].data[j] in q.requests[k].data;
      }
    }
  }

  /** What the engine's callers provide: at least one item, and no two items with one id. */
  predicate WellFormed(r: Request) {
    r.data != [] && forall a, b :: 0 <= a < b < |r.data| ==> r.data[a].id != r.data[b].id
  }

  function WaitingIn(r: ID, data: seq<Data>, flags: map<ID, bool>): (w: seq<Item>)
    requires Flagged(data, flags)
  {
    if data == [] then []
    else (if flags[data[0].id] then [] else [Item(r, data[0])]) + WaitingIn(r, data[1..], flags)
  }

  function WaitingOf(keys: seq<ID>, requests: map<ID, Request>, done: map<ID, map<ID, bool>>): (w: seq<Item>)
    requires AllKnown(keys, requests, done)
  {
    if keys == [] then []
    else WaitingIn(keys[0], requests[keys[0]].data, done[keys[0]]) + WaitingOf(keys[1..], requests, done)
  }

  function Items(r: Request): seq<Item> {
    seq(|r.data|, i requires 0 <= i < |r.data| => Item(r.id, r.data[i]))
  }

  // ---- batches ----

  /** How many leading items have the given modality and model. */
  function Leading(w: seq<Item>, modality: ID, model: ID): (n: nat)
    ensures n <= |w|
    ensures forall i :: 0 <= i < n ==> w[i].data.modality == modality && w[i].data.model == model
    ensures n < |w| ==> w[n].data.modality != modality || w[n].data.model != model
  {
    if w == [] || w[0].data.modality != modality || w[0].data.model != model then 0
    else 1 + Leading(w[1..], modality, model)
  }

  /** Only a limit of at least 1 caps a batch: the running count is compared with it for equality. */
  function Cap(n: nat, limit: Option<int>): (m: nat)
    ensures m <= n && (n > 0 ==> m > 0)
  {
    if limit.Some? && 1 <= limit.value < n then limit.value else n
  }

  predicate Matches(x: Item, modality: ID, model: ID) {
    x.data.modality == modality && x.data.model == model
  }

  /** How many of `w` are yielded after `count` others, before a mismatch or the limit stops the iteration. */
  function Yielded(w: seq<Item>, modality: ID, model: ID, limit: Option<int>, count: nat): (n: nat)
    ensures n <= |w|
  {
    if w == [] || !Matches(w[0], modality, model) then 0
    else if limit == Some(count + 1) then 1
    else 1 + Yielded(w[1..], modality, model, limit, count + 1)
  }

  predicate Stops(w: seq<Item>, modality: ID, model: ID, limit: Option<int>, count: nat) {
    w != [] && (!Matches(w[0], modality, model) || limit == Some(count + 1)
        || Stops(w[1..], modality, model, limit, count + 1))
  }

  lemma {:induction false} YieldedConcat(u: seq<Item>, v: seq<Item>, modality: ID, model: ID, limit: Option<int>,
          count: nat)
    ensures Stops(u + v, modality, model, limit, count)
            == (Stops(u, modality, model, limit, count) || Stops(v, modality, model, limit, count + |u|))
    ensures Yielded(u + v, modality, model, limit, count)
            == if Stops(u, modality, model, limit, count) then Yielded(u, modality, model, limit, count)
               else |u| + Yielded(v, modality, model, limit, count + |u|)
  {
    if u == [] {
      assert u + v == v;
    } else {
      YieldedConcat(u[1..], v, modality, model, limit, count + 1);
      assert (u + v)[1..] == u[1..] + v;
    }
  }

  /** Over the whole queue that is the leading run, capped. */
  lemma {:induction false} YieldedIsCap(w: seq<Item>, modality: ID, model: ID, limit: Option<int>, count: nat)
    requires limit.Some? && limit.value >= 1 ==> count < limit.value
    ensures Yielded(w, modality, model, limit, count)
            == Cap(Leading(w, modality, model),
                   if limit.Some? && limit.value >= 1 then Some(limit.value - count) else None)
  {
    if w != [] && Matches(w[0], modality, model) && limit != Some(count + 1) {
      YieldedIsCap(w[1..], modality, model, limit, count + 1);
    }
  }

  function BatchSize(w: seq<Item>, limit: Option<int>): (n: nat)
    requires w != []
    ensures 0 < n <= |w|
  {
    Cap(Leading(w, w[0].data.modality, w[0].data.model), limit)
  }

  /** A limit is kept exactly if it is at least one: the count is compared for equality, and no batch is empty. */
  lemma LimitKeptIff(w: seq<Item>, limit: int)
    requires w != []
    ensures BatchSize(w, Some(limit)) <= limit <==> limit >= 1
  {
    YieldedIsCap(w, w[0].data.modality, w[0].data.model, Some(limit), 0);
  }

  /** A batch is a run of one modality and model that cannot be extended within the limit. */
  ghost predicate MaximalRun(w: seq<Item>, n: nat, limit: Option<int>)
    requires 0 < n <= |w|
  {
    && (forall i :: 0 <= i < n ==> w[i].data.modality == w[0].data.modality && w[i].data.model == w[0].data.model)
    && (limit.Some? && limit.value >= 1 ==> n <= limit.value)
    && (n == |w| || (limit.Some? && n == limit.value)
        || w[n].data.modality != w[0].data.modality || w[n].data.model != w[0].data.model)
  }

  lemma BatchIsMaximal(w: seq<Item>, limit: Option<int>, n: nat)
    requires w != [] && 0 < n <= |w|
    ensures MaximalRun(w, n, limit) <==> n == BatchSize(w, limit)
  {
    if MaximalRun(w, n, limit) { LeadingReaches(w, w[0].data.modality, w[0].data.model, n); }
  }

  lemma {:induction false} LeadingReaches(w: seq<Item>, modality: ID, model: ID, n: nat)
    requires n <= |w| && forall i :: 0 <= i < n ==> w[i].data.modality == modality && w[i].data.model == model
    ensures n <= Leading(w, modality, model)
  {
    if n > 0 { LeadingReaches(w[1..], modality, model, n - 1); }
  }

  // ---- marking items done ----

  function IdOf(x: Item): (ID, ID) { (x.request, x.data.id) }

  ghost predicate NoDup(w: seq<Item>) {
    forall a, b :: 0 <= a < b < |w| ==> IdOf(w[a]) != IdOf(w[b])
  }

  lemma {:induction false} WaitingInMembers(r: ID, data: seq<Data>, flags: map<ID, bool>)
    requires Flagged(data, flags)
    ensures forall x :: x in WaitingIn(r, data, flags) <==> x.request == r && x.data in data && !flags[x.data.id]
    ensures (forall a, b :: 0 <= a < b < |data| ==> data[a].id != data[b].id) ==> NoDup(WaitingIn(r, data, flags))
  {
    if data != [] {
      WaitingInMembers(r, data[1..], flags);
      assert data == [data[0]] + data[1..];
      if forall a, b :: 0 <= a < b < |data| ==> data[a].id != data[b].id {
        assert forall a, b :: 0 <= a < b < |data[1..]| ==> data[1..][a].id != data[1..][b].id;
        assert data[0] !in data[1..];
        assert NoDup(WaitingIn(r, data[1..], flags));
      }
    }
  }

  lemma {:induction false} WaitingMembers(keys: seq<ID>, requests: map<ID, Request>, done: map<ID, map<ID, bool>>)
    requires AllKnown(keys, requests, done)
    ensures forall x :: x in WaitingOf(keys, requests, done) <==>
                        x.request in keys && x.data in requests[x.request].data && !done[x.request][x.data.id]
  {
    if keys != [] {
      WaitingInMembers(keys[0], requests[keys[0]].data, done[keys[0]]);
      WaitingMembers(keys[1..], requests, done);
    }
  }

  lemma {:induction false} WaitingNoDup(keys: seq<ID>, requests: map<ID, Request>, done: map<ID, map<ID, bool>>)
    requires AllKnown(keys, requests, done)
    requires forall a, b :: 0 <= a < b < |keys| ==> keys[a] != keys[b]
    requires forall i :: 0 <= i < |keys| ==> WellFormed(requests[keys[i]])
    ensures NoDup(WaitingOf(keys, requests, done))
  {
    if keys != [] {
      WaitingInMembers(keys[0], requests[keys[0]].data, done[keys[0]]);
      WaitingNoDup(keys[1..], requests, done);
      WaitingMembers(keys[1..], requests, done);
    }
  }

  /** `after` has the flags of `before`, and besides those of the items in `ran`. */
  ghost predicate Marked(before: map<ID, map<ID, bool>>, after: map<ID, map<ID, bool>>, ran: set<(ID, ID)>) {
    && after.Keys == before.Keys
    && forall k <- after :: MarkedIn(k, before[k], after[k], ran)
  }

  ghost predicate MarkedIn(k: ID, before: map<ID, bool>, after: map<ID, bool>, ran: set<(ID, ID)>) {
    && after.Keys == before.Keys
    && forall d <- after :: after[d] == (before[d] || (k, d) in ran)
  }

  function Drop(w: seq<Item>, ran: set<(ID, ID)>): seq<Item> {
    if w == [] then [] else (if IdOf(w[0]) in ran then [] else [w[0]]) + Drop(w[1..], ran)
  }

  lemma {:induction false} DropConcat(u: seq<Item>, v: seq<Item>, ran: set<(ID, ID)>)
    ensures Drop(u + v, ran) == Drop(u, ran) + Drop(v, ran)
  {
    if u == [] {
      assert u + v == v;
    } else {
      DropConcat(u[1..], v, ran);
      assert (u + v)[0] == u[0] && (u + v)[1..] == u[1..] + v;
      Regroup(if IdOf(u[0]) in ran then [] else [u[0]], Drop(u[1..], ran), Drop(v, ran));
    }
  }

  lemma Regroup<T>(a: seq<T>, b: seq<T>, c: seq<T>)
    ensures a + (b + c) == a + b + c
  {
  }

  lemma {:induction false} MarkDropsIn(r: ID, data: seq<Data>, before: map<ID, bool>, after: map<ID, bool>,
          ran: set<(ID, ID)>)
    requires Flagged(data, before) && MarkedIn(r, before, after, ran)
    ensures WaitingIn(r, data, after) == Drop(WaitingIn(r, data, before), ran)
  {
    if data != [] {
      MarkDropsIn(r, data[1..], before, after, ran);
      var head := if before[data[0].id] then [] else [Item(r, data[0])];
      DropConcat(head, WaitingIn(r, data[1..], before), ran);
    }
  }

  lemma {:induction false} MarkDrops(keys: seq<ID>, q: Queue, after: map<ID, map<ID, bool>>, ran: set<(ID, ID)>)
    requires Marked(q.done, after, ran)
    requires AllKnown(keys, q.requests, q.done)
    ensures WaitingOf(keys, q.requests, after) == Drop(WaitingOf(keys, q.requests, q.done), ran)
  {
    if keys != [] {
      var k := keys[0];
      MarkDropsIn(k, q.requests[k].data, q.done[k], after[k], ran);
      MarkDrops(keys[1..], q, after, ran);
      DropConcat(WaitingIn(k, q.requests[k].data, q.done[k]), WaitingOf(keys[1..], q.requests, q.done), ran);
    }
  }

  /** Dropping what a prefix names leaves the rest, when no two items have one id. */
  lemma {:induction false} DropPrefix(w: seq<Item>, n: nat, ran: set<(ID, ID)>)
    requires n <= |w| && forall i :: 0 <= i < |w| ==> (IdOf(w[i]) in ran <==> i < n)
    ensures Drop(w, ran) == w[n..]
  {
    if w != [] {
      assert forall i :: 0 <= i < |w[1..]| ==> w[1..][i] == w[i + 1];
      DropPrefix(w[1..], if n == 0 then 0 else n - 1, ran);
    }
  }

  // ---- removing finished requests ----

  function WithoutKeys(keys: seq<ID>, gone: set<ID>): (r: seq<ID>)
  {
    if keys == [] then [] else (if keys[0] in gone then [] else [keys[0]]) + WithoutKeys(keys[1..], gone)
  }

  lemma {:induction false} WithoutKeysMembers(keys: seq<ID>, gone: set<ID>)
    ensures forall k :: k in WithoutKeys(keys, gone) <==> k in keys && k !in gone
  {
    if keys != [] {
      WithoutKeysMembers(keys[1..], gone);
      assert keys == [keys[0]] + keys[1..];
    }
  }

  lemma {:induction false} WithoutKeysDistinct(keys: seq<ID>, gone: set<ID>)
    requires forall a, b :: 0 <= a < b < |keys| ==> keys[a] != keys[b]
    ensures forall a, b :: 0 <= a < b < |WithoutKeys(keys, gone)| ==>
              WithoutKeys(keys, gone)[a] != WithoutKeys(keys, gone)[b]
  {
    if keys != [] {
      assert forall a, b :: 0 <= a < b < |keys[1..]| ==> keys[1..][a] != keys[1..][b];
      WithoutKeysDistinct(keys[1..], gone);
      WithoutKeysMembers(keys[1..], gone);
      assert keys[0] !in keys[1..];
    }
  }

  lemma WithoutKeysKnown(keys: seq<ID>, requests: map<ID, Request>, done: map<ID, map<ID, bool>>, gone: set<ID>)
    requires AllKnown(keys, requests, done)
    ensures AllKnown(WithoutKeys(keys, gone), requests - gone, done - gone)
  {
    WithoutKeysMembers(keys, gone);
    var r := WithoutKeys(keys, gone);
    forall i | 0 <= i < |r| ensures Known(r[i], requests - gone, done - gone) {
      assert r[i] in r;
      var j :| 0 <= j < |keys| && keys[j] == r[i];
      assert Known(keys[j], requests, done);
    }
  }

  lemma {:induction false} NothingWaits(r: ID, data: seq<Data>, flags: map<ID, bool>)
    requires Flagged(data, flags) && forall i :: 0 <= i < |data| ==> flags[data[i].id]
    ensures WaitingIn(r, data, flags) == []
  {
    if data != [] { NothingWaits(r, data[1..], flags); }
  }

  /** Requests without undone items contribute nothing, so removing them changes nothing that waits. */
  lemma {:induction false} RemovalKeepsWaiting(keys: seq<ID>, requests: map<ID, Request>,
          done: map<ID, map<ID, bool>>, gone: set<ID>)
    requires AllKnown(keys, requests, done)
    requires forall k :: k in gone && k in done ==> AllTrue(done[k])
    ensures AllKnown(WithoutKeys(keys, gone), requests - gone, done - gone)
    ensures WaitingOf(WithoutKeys(keys, gone), requests - gone, done - gone) == WaitingOf(keys, requests, done)
  {
    WithoutKeysKnown(keys, requests, done, gone);
    if keys != [] {
      var k, rest := keys[0], keys[1..];
      RemovalKeepsWaiting(rest, requests, done, gone);
      if k in gone {
        NothingWaits(k, requests[k].data, done[k]);
        assert WithoutKeys(keys, gone) == WithoutKeys(rest, gone);
      } else {
        assert WithoutKeys(keys, gone)[1..] == WithoutKeys(rest, gone);
      }
    }
  }

  lemma {:induction false} WaitingOfAppend(keys: seq<ID>, k: ID, requests: map<ID, Request>,
          done: map<ID, map<ID, bool>>)
    requires AllKnown(keys, requests, done) && Known(k, requests, done)
    ensures AllKnown(keys + [k], requests, done)
    ensures WaitingOf(keys + [k], requests, done) == WaitingOf(keys, requests, done)
              + WaitingIn(k, requests[k].data, done[k])
  {
    if keys == [] {
      assert keys + [k] == [k];
    } else {
      assert (keys + [k])[1..] == keys[1..] + [k];
      WaitingOfAppend(keys[1..], k, requests, done);
    }
  }

  lemma {:induction false} WaitingOfFrame(keys: seq<ID>, r: map<ID, Request>, f: map<ID, map<ID, bool>>,
                                          r': map<ID, Request>, f': map<ID, map<ID, bool>>)
    requires AllKnown(keys, r, f)
    requires forall i :: 0 <= i < |keys| ==>
              keys[i] in r' && keys[i] in f' && r'[keys[i]] == r[keys[i]] && f'[keys[i]] == f[keys[i]]
    ensures AllKnown(keys, r', f')
    ensures WaitingOf(keys, r', f') == WaitingOf(keys, r, f)
  {
    if keys != [] { WaitingOfFrame(keys[1..], r, f, r', f'); }
  }

  lemma {:induction false} AllWait(r: Request, n: nat, flags: map<ID, bool>)
    requires n <= |r.data| && forall i :: n <= i < |r.data| ==> r.data[i].id in flags && !flags[r.data[i].id]
    ensures WaitingIn(r.id, r.data[n..], flags) == Items(r)[n..]
    decreases |r.data| - n
  {
    if n < |r.data| {
      AllWait(r, n + 1, flags);
      assert r.data[n..][1..] == r.data[n + 1..];
      assert Items(r)[n..] == [Items(r)[n]] + Items(r)[n + 1..];
    }
  }

  // ---- a run without further arrivals ----

  /** The batches that the scheduler forms from `w` one after the other. */
  function Drain(w: seq<Item>, limit: Option<int>): (batches: seq<seq<Item>>)
    decreases |w|
  {
    if w == [] then [] else [w[..BatchSize(w, limit)]] + Drain(w[BatchSize(w, limit)..], limit)
  }

  function Flatten(batches: seq<seq<Item>>): seq<Item> {
    if batches == [] then [] else batches[0] + Flatten(batches[1..])
  }

  /** The batches partition the arrivals in order, and each is a maximal run of what is left when it is formed. */
  lemma {:induction false} DrainPartitions(w: seq<Item>, limit: Option<int>)
    ensures Flatten(Drain(w, limit)) == w
    ensures forall i :: 0 <= i < |Drain(w, limit)| ==>
              var rest := Flatten(Drain(w, limit)[i..]);
              Drain(w, limit)[i] != [] && Drain(w, limit)[i] <= rest && MaximalRun(rest, |Drain(w, limit)[i]|, limit)
    decreases |w|
  {
    if w != [] {
      var n := BatchSize(w, limit);
      DrainPartitions(w[n..], limit);
      var d := Drain(w, limit);
      assert d[1..] == Drain(w[n..], limit);
      assert w == w[..n] + w[n..];
      BatchIsMaximal(w, limit, n);
      forall i | 0 <= i < |d|
        ensures d[i] != [] && d[i] <= Flatten(d[i..]) && MaximalRun(Flatten(d[i..]), |d[i]|, limit)
      {
        if i == 0 {
          assert d[0..] == d;
        } else {
          assert d[i..] == d[1..][i - 1..];
          assert d[i] == d[1..][i - 1];
        }
      }
    }
  }
}
