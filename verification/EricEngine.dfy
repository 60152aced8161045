/** The scheduler's objects, with the history of a run of the engine loop kept as ghost state. */
module EricEngine {
  import opened Options
  import opened EricScheduler

  class RequestQueue {
    var keys: seq<ID>
    var requests: map<ID, Request>
    var done: map<ID, map<ID, bool>>

    function Q(): Queue
      reads this
    {
      Queue(keys, requests, done)
    }

    ghost predicate Valid()
      reads this
    {
      ValidQueue(Q())
    }

    constructor ()
      ensures Valid() && keys == []
    {
      keys, requests, done := [], map[], map[];
    }

    method Enqueue(r: Request)
      requires Valid() && WellFormed(r) && r.id !in keys
      modifies this
      ensures Valid() && keys == old(keys) + [r.id] && requests == old(requests)[r.id := r]
      ensures Q().Waiting() == old(Q().Waiting()) + Items(r)
    {
      ghost var before := Q();
      var flags := Undone(r);
      keys, requests, done := keys + [r.id], requests[r.id := r], done[r.id := flags];
      EnqueueKeeps(before, r, flags);
      assert Q() == Queue(before.keys + [r.id], before.requests[r.id := r], before.done[r.id := flags]);
    }

    static method Undone(r: Request) returns (flags: map<ID, bool>)
      ensures flags.Keys == DataIds(r.data) && forall d :: d in flags ==> !flags[d]
    {
      flags := map[];
      for i := 0 to |r.data|
        invariant flags.Keys == DataIds(r.data[..i]) && forall d :: d in flags ==> !flags[d]
      {
        assert r.data[..i + 1] == r.data[..i] + [r.data[i]];
        flags := flags[r.data[i].id := false];
      }
      assert r.data[..|r.data|] == r.data;
    }

    /** The first item of the head request that has not run; None stands for the ValueError. */
    method PeekData() returns (r: Option<Data>)
      requires Valid() && keys != []
      ensures Q().Waiting() != [] && r == Some(Q().Waiting()[0].data)
    {
      var k := keys[0];
      assert Tracked(k, requests[k], done[k]) && Known(k, requests, done);
      SomethingWaits(k, requests[k].data, done[k]);
      r := FirstUndone(k, requests[k].data, done[k]);
    }

    static method FirstUndone(k: ID, data: seq<Data>, flags: map<ID, bool>) returns (r: Option<Data>)
      requires Flagged(data, flags)
      ensures r == if WaitingIn(k, data, flags) == [] then None else Some(WaitingIn(k, data, flags)[0].data)
    {
      for i := 0 to |data|
        invariant WaitingIn(k, data, flags) == WaitingIn(k, data[i..], flags)
      {
        WaitingInStep(k, data, flags, i);
        if !flags[data[i].id] {
          return Some(data[i]);
        }
      }
      return None;
    }

    /** The items that the generator yields before it stops. */
    method IterWaiting(modality: ID, model: ID, maxItems: Option<int>) returns (items: seq<Item>)
      requires AllKnown(keys, requests, done)
      ensures items == Q().Waiting()[..Cap(Leading(Q().Waiting(), modality, model), maxItems)]
    {
      items := [];
      ghost var w := Q().Waiting();
      var n := 0;
      while n < |keys|
        invariant 0 <= n <= |keys|
        invariant w == items + WaitingOf(keys[n..], requests, done)
        invariant !Stops(items, modality, model, maxItems, 0)
      {
        var k := keys[n];
        assert Known(k, requests, done) && keys[n..][1..] == keys[n + 1..];
        var more, stopped := IterRequest(k, requests[k].data, done[k], modality, model, maxItems, |items|);
        ghost var u, rest := WaitingIn(k, requests[k].data, done[k]), WaitingOf(keys[n + 1..], requests, done);
        if stopped {
          StoppedAt(items, u, rest, modality, model, maxItems);
          items := items + more;
          return;
        }
        GoesOn(items, u, modality, model, maxItems);
        items := items + more;
        assert w == items + rest;
        n := n + 1;
      }
      assert keys[n..] == [] && w == items;
      NeverStopped(w, modality, model, maxItems);
    }

    /** The inner loop of the generator: the items of one request, `count` others having been yielded before. */
    static method IterRequest(k: ID, data: seq<Data>, flags: map<ID, bool>, modality: ID, model: ID,
            maxItems: Option<int>, count: nat)
      returns (items: seq<Item>, stopped: bool)
      requires Flagged(data, flags)
      ensures items == WaitingIn(k, data, flags)[..Yielded(WaitingIn(k, data, flags), modality, model, maxItems, count)]
      ensures stopped == Stops(WaitingIn(k, data, flags), modality, model, maxItems, count)
      ensures !stopped ==> items == WaitingIn(k, data, flags)
    {
      items := [];
      ghost var w := WaitingIn(k, data, flags);
      WaitingFromStart(k, data, flags, 0);
      ghost var rest := w;
      for i := 0 to |data|
        invariant w == items + rest && rest == WaitingFrom(k, data, flags, i)
        invariant GoingOn(w, |items|, modality, model, maxItems, count)
      {
        if !flags[data[i].id] {
          var x := Item(k, data[i]);
          var total := count + |items| + 1;
          rest := WaitingFrom(k, data, flags, i + 1);
          IterStep(w, items, x, rest, modality, model, maxItems, count, total);
          if !Matches(x, modality, model) {
            return items, true;
          }
          items := items + [x];
          if maxItems == Some(total) {
            return items, true;
          }
        }
      }
      assert w == items;
      NothingMore(w, |items|, modality, model, maxItems, count);
      stopped := false;
    }

    /** Flags the given items; reports and removes the requests among them that have nothing left to run. */
    method MarkDone(requestIds: seq<ID>, dataIds: seq<ID>) returns (finished: seq<ID>)
      requires Valid() && |requestIds| == |dataIds|
      requires forall i :: 0 <= i < |requestIds| ==> requestIds[i] in keys && dataIds[i] in done[requestIds[i]]
      modifies this
      ensures Valid()
      ensures Q().Waiting() == Drop(old(Q().Waiting()), Pairs(requestIds, dataIds))
      ensures keys == WithoutKeys(old(keys), SetOf(finished))
      ensures requests == old(requests) - SetOf(finished)
      ensures forall a, b :: 0 <= a < b < |finished| ==> finished[a] != finished[b]
      ensures forall k :: k in finished <==> k in requestIds && !exists x :: x in Q().Waiting() && x.request == k
    {
      ghost var before := Q();
      SetFlags(requestIds, dataIds);
      ghost var marked := done;
      finished := RemoveFinished(SetOf(requestIds));
      ghost var gone := Finished(SetOf(requestIds), marked);
      assert Q() == Queue(WithoutKeys(before.keys, gone), before.requests - gone, marked - gone);
      MarkOutcome(before, marked, requestIds, dataIds);
      assert forall k :: k in finished <==> k in SetOf(finished);
    }

    /** MarkDone as the engine calls it, with the ids of a batch. */
    method BatchDone(batch: seq<Item>) returns (finished: seq<ID>)
      requires Valid() && batch <= Q().Waiting()
      modifies this
      ensures Valid() && Q().Waiting() == old(Q().Waiting())[|batch|..]
      ensures keys == WithoutKeys(old(keys), SetOf(finished)) && requests == old(requests) - SetOf(finished)
      ensures forall k :: k in finished ==> k in old(keys)
      ensures forall a, b :: 0 <= a < b < |finished| ==> finished[a] != finished[b]
    {
      var requestIds := seq(|batch|, i requires 0 <= i < |batch| => batch[i].request);
      var dataIds := seq(|batch|, i requires 0 <= i < |batch| => batch[i].data.id);
      BatchIds(Q(), batch, requestIds, dataIds);
      finished := MarkDone(requestIds, dataIds);
    }

    method SetFlags(requestIds: seq<ID>, dataIds: seq<ID>)
      requires |requestIds| == |dataIds|
      requires forall i :: 0 <= i < |requestIds| ==> requestIds[i] in done && dataIds[i] in done[requestIds[i]]
      modifies this`done
      ensures Marked(old(done), done, Pairs(requestIds, dataIds))
    {
      ghost var before := done;
      for i := 0 to |requestIds|
        invariant Marked(before, done, Pairs(requestIds[..i], dataIds[..i]))
      {
        var k, d := requestIds[i], dataIds[i];
        MarkOne(before, done, requestIds, dataIds, i);
        done := done[k := done[k][d := true]];
      }
      assert requestIds[..|requestIds|] == requestIds && dataIds[..|dataIds|] == dataIds;
    }

    method RemoveFinished(ids: set<ID>) returns (finished: seq<ID>)
      requires forall k <- ids :: k in done
      modifies this
      ensures forall a, b :: 0 <= a < b < |finished| ==> finished[a] != finished[b]
      ensures SetOf(finished) == Finished(ids, old(done))
      ensures keys == WithoutKeys(old(keys), Finished(ids, old(done)))
      ensures requests == old(requests) - Finished(ids, old(done)) && done == old(done) - Finished(ids, old(done))
    {
      finished := [];
      var todo := ids;
      ghost var keys0, requests0, done0 := keys, requests, done;
      WithoutNothing(keys);
      ghost var gone: set<ID> := {};
      while todo != {}
        invariant todo <= ids && gone == Finished(ids - todo, done0)
        invariant forall k :: k in finished <==> k in gone
        invariant forall a, b :: 0 <= a < b < |finished| ==> finished[a] != finished[b]
        invariant requests == requests0 - gone && done == done0 - gone && keys == WithoutKeys(keys0, gone)
      {
        var k :| k in todo;
        if AllTrue(done[k]) {
          finished := finished + [k];
          requests, done, keys := requests - {k}, done - {k}, WithoutKeys(keys, {k});
          WithoutKeysTwice(keys0, gone, {k});
          gone := gone + {k};
        }
        todo := todo - {k};
      }
      assert ids - todo == ids;
    }
  }

  function SetOf(s: seq<ID>): set<ID> {
    set k | k in s
  }

  /** What the engine loop handles. */
  datatype Event = Arrive(r: Request) | StepEngine

  class Scheduler {
    const maxBatchSize: Option<int>
    const queue: RequestQueue
    ghost var log: Log

    ghost predicate Valid()
      reads this, queue
    {
      && queue.Valid()
      && log.keys == queue.keys && log.requests == queue.requests && log.waiting == queue.Q().Waiting()
    }

    constructor (maxBatchSize: Option<int>)
      ensures Valid() && fresh(queue) && this.maxBatchSize == maxBatchSize && log == EmptyLog()
    {
      this.maxBatchSize := maxBatchSize;
      queue := new RequestQueue();
      log := EmptyLog();
    }

    method Enqueue(r: Request)
      requires Valid() && WellFormed(r) && r.id !in log.submitted
      modifies this, queue
      ensures Valid() && log == LogEnqueue(old(log), r)
    {
      queue.Enqueue(r);
      log := LogEnqueue(log, r);
    }

    /** The next batch; only called when something is queued. */
    method Schedule() returns (batch: seq<Item>)
      requires Valid() && queue.keys != []
      ensures log.waiting != [] && 0 < |batch| <= |log.waiting|
      ensures batch == log.waiting[..BatchSize(log.waiting, maxBatchSize)]
      ensures MaximalRun(log.waiting, |batch|, maxBatchSize)
    {
      var head := queue.PeekData();
      batch := queue.IterWaiting(head.value.modality, head.value.model, maxBatchSize);
      BatchIsMaximal(queue.Q().Waiting(), maxBatchSize, |batch|);
    }

    /** One engine step: schedule a batch, run it, process its result. */
    method Step() returns (batch: seq<Item>, finished: seq<ID>)
      requires Valid() && queue.keys != []
      modifies this, queue
      ensures Valid()
      ensures 0 < |batch| <= |old(log).waiting| && MaximalRun(old(log).waiting, |batch|, maxBatchSize)
      ensures StepAllowed(old(log), batch, finished) && log == LogStep(old(log), batch, finished)
    {
      batch := Schedule();
      finished := queue.BatchDone(batch);
      log := LogStep(log, batch, finished);
    }

    method Handle(event: Event)
      requires Valid() && (event.Arrive? ==> WellFormed(event.r) && event.r.id !in log.submitted)
      modifies this, queue
      ensures Valid()
      ensures log.arrived == old(log).arrived + if event.Arrive? then Items(event.r) else []
      ensures log.submitted == if event.Arrive? then old(log).submitted[event.r.id := event.r] else old(log).submitted
      ensures log.waiting == After(old(log).waiting, event, maxBatchSize)
    {
      match event {
        case Arrive(r) => Enqueue(r);
        case StepEngine => StepIfAny();
      }
    }

    method StepIfAny()
      requires Valid()
      modifies this, queue
      ensures Valid() && log.arrived == old(log).arrived && log.submitted == old(log).submitted
      ensures log.waiting == After(old(log).waiting, StepEngine, maxBatchSize)
    {
      if queue.keys != [] {
        ghost var w := log.waiting;
        var batch, _ := Step();
        StepLeaves(w, batch, maxBatchSize);
      }
    }

    /**
     The engine loop over any sequence of arrivals and steps; with nothing queued it waits instead of
     stepping. What ran is always what arrived, less what is left to run after a batch at every step,
     and a request is reported exactly when its last item has run.
    */
    method Run(events: seq<Event>)
      requires Valid()
      requires AllFresh(events, log.submitted.Keys)
      modifies this, queue
      ensures Valid() && log.arrived == old(log).arrived + Arrivals(events)
      ensures log.waiting == AfterAll(old(log).waiting, events, maxBatchSize)
      ensures log.arrived == log.ran + log.waiting && ReportedWhenRan(log)
    {
      ghost var goal, left := log.arrived + Arrivals(events), AfterAll(log.waiting, events, maxBatchSize);
      for n := 0 to |events|
        invariant Valid() && AllFresh(events[n..], log.submitted.Keys)
        invariant log.arrived + Arrivals(events[n..]) == goal
        invariant AfterAll(log.waiting, events[n..], maxBatchSize) == left
      {
        HandleNext(events, n, log.submitted, log.arrived);
        Handle(events[n]);
      }
      ReportedIffRan(queue.Q(), log);
    }

    /**
     With no more arrivals the loop empties the queue: everything runs in the batches of Drain, and every request
     is reported once.
    */
    method Finish() returns (ghost batches: seq<seq<Item>>)
      requires Valid()
      modifies this, queue
      ensures batches == Drain(old(log).waiting, maxBatchSize)
      ensures Valid() && log.ran == log.arrived == old(log).arrived && log.submitted == old(log).submitted
      ensures forall k :: k in log.reported <==> k in log.submitted
      ensures forall a, b :: 0 <= a < b < |log.reported| ==> log.reported[a] != log.reported[b]
    {
      batches := [];
      while queue.keys != []
        invariant Valid() && log.arrived == old(log).arrived && log.submitted == old(log).submitted
        invariant Drain(old(log).waiting, maxBatchSize) == batches + Drain(log.waiting, maxBatchSize)
        decreases |log.waiting|
      {
        ghost var w := log.waiting;
        var batch, _ := Step();
        DrainStep(w, batch, maxBatchSize, batches);
        batches := batches + [batch];
      }
    }
  }

  /** What is left to run after an event: a step runs a batch if anything waits. */
  function After(w: seq<Item>, event: Event, limit: Option<int>): seq<Item> {
    match event
    case Arrive(r) => w + Items(r)
    case StepEngine => if w == [] then [] else w[BatchSize(w, limit)..]
  }

  function AfterAll(w: seq<Item>, events: seq<Event>, limit: Option<int>): seq<Item>
    decreases |events|
  {
    if events == [] then w else AfterAll(After(w, events[0], limit), events[1..], limit)
  }

  function Steps(k: nat): seq<Event> { seq(k, _ => StepEngine) }

  /** With no arrivals between them, `k` steps run the first `k` batches of Drain. */
  lemma {:induction false} StepsDrain(w: seq<Item>, k: nat, limit: Option<int>)
    ensures AfterAll(w, Steps(k), limit) == if k <= |Drain(w, limit)| then Flatten(Drain(w, limit)[k..]) else []
    decreases k
  {
    if k == 0 {
      DrainPartitions(w, limit);
    } else {
      assert Steps(k)[1..] == Steps(k - 1);
      StepsDrain(After(w, StepEngine, limit), k - 1, limit);
      DrainTail(w, k, limit);
    }
  }

  lemma DrainTail(w: seq<Item>, k: nat, limit: Option<int>)
    requires k > 0
    ensures var d, rest := Drain(w, limit), Drain(After(w, StepEngine, limit), limit);
            && (k <= |d| <==> w != [] && k - 1 <= |rest|) && (k <= |d| ==> d[k..] == rest[k - 1..])
            && (w == [] ==> rest == [])
  {
    if w != [] {
      var d, n := Drain(w, limit), BatchSize(w, limit);
      assert d == [w[..n]] + Drain(w[n..], limit);
    }
  }

  lemma StepLeaves(w: seq<Item>, batch: seq<Item>, limit: Option<int>)
    requires 0 < |batch| <= |w| && MaximalRun(w, |batch|, limit)
    ensures After(w, StepEngine, limit) == w[|batch|..]
  {
    BatchIsMaximal(w, limit, |batch|);
  }

  lemma DrainStep(w: seq<Item>, batch: seq<Item>, limit: Option<int>, before: seq<seq<Item>>)
    requires 0 < |batch| <= |w| && batch <= w && MaximalRun(w, |batch|, limit)
    ensures before + Drain(w, limit) == before + [batch] + Drain(w[|batch|..], limit)
  {
    BatchIsMaximal(w, limit, |batch|);
    assert batch == w[..|batch|];
    Regroup(before, [batch], Drain(w[|batch|..], limit));
  }

  function Arrivals(events: seq<Event>): seq<Item> {
    if events == [] then []
    else (if events[0].Arrive? then Items(events[0].r) else []) + Arrivals(events[1..])
  }

  /** What the engine's callers provide: well-formed requests whose ids have not been used before. */
  predicate AllFresh(events: seq<Event>, used: set<ID>) {
    events == [] ||
    if events[0].Arrive?
    then WellFormed(events[0].r) && events[0].r.id !in used && AllFresh(events[1..], used + {events[0].r.id})
    else AllFresh(events[1..], used)
  }

  lemma HandleNext(events: seq<Event>, n: nat, submitted: map<ID, Request>, arrived: seq<Item>)
    requires n < |events| && AllFresh(events[n..], submitted.Keys)
    ensures events[n].Arrive? ==> WellFormed(events[n].r) && events[n].r.id !in submitted
    ensures AllFresh(events[n + 1..], if events[n].Arrive? then submitted[events[n].r.id := events[n].r].Keys
              else submitted.Keys)
    ensures arrived + Arrivals(events[n..]) == arrived + (if events[n].Arrive? then Items(events[n].r) else [])
              + Arrivals(events[n + 1..])
  {
    assert events[n..][0] == events[n] && events[n..][1..] == events[n + 1..];
    Regroup(arrived, if events[n].Arrive? then Items(events[n].r) else [], Arrivals(events[n + 1..]));
    if events[n].Arrive? {
      assert submitted[events[n].r.id := events[n].r].Keys == submitted.Keys + {events[n].r.id};
    }
  }

  /** The queue's contents together with everything that ever arrived. */
  datatype RawLog = RawLog(keys: seq<ID>, requests: map<ID, Request>, waiting: seq<Item>,
                           submitted: map<ID, Request>,  // all requests ever enqueued
                           arrived: seq<Item>,           // their items, in arrival order
                           ran: seq<Item>,               // all batches so far, one after the other
                           reported: seq<ID>)            // requests reported as done, in order
  {
    ghost predicate Consistent() {
      Accounts(waiting, submitted, arrived, ran) && Reports(keys, requests, submitted, reported)
    }
  }

  type Log = l: RawLog | l.Consistent() ghost witness EmptyLog()

  ghost function EmptyLog(): (l: RawLog)
    ensures l.Consistent()
  {
    RawLog([], map[], [], map[], [], [], [])
  }

  ghost function LogEnqueue(l: Log, r: Request): (t: Log)
    requires WellFormed(r) && r.id !in l.submitted
    ensures t.arrived == l.arrived + Items(r) && t.submitted == l.submitted[r.id := r]
    ensures t.ran == l.ran && t.reported == l.reported
  {
    EnqueueAccounts(l.waiting, r, l.submitted, l.arrived, l.ran);
    EnqueueReports(l.keys, l.requests, r, l.submitted, l.reported);
    RawLog(l.keys + [r.id], l.requests[r.id := r], l.waiting + Items(r), l.submitted[r.id := r], l.arrived + Items(r),
        l.ran, l.reported)
  }

  ghost predicate StepAllowed(l: Log, batch: seq<Item>, finished: seq<ID>) {
    && batch <= l.waiting
    && (forall k :: k in finished ==> k in l.keys)
    && (forall a, b :: 0 <= a < b < |finished| ==> finished[a] != finished[b])
  }

  ghost function LogStep(l: Log, batch: seq<Item>, finished: seq<ID>): (t: Log)
    requires StepAllowed(l, batch, finished)
    ensures t.arrived == l.arrived && t.submitted == l.submitted && t.waiting == l.waiting[|batch|..]
    ensures t.ran == l.ran + batch && t.reported == l.reported + finished
  {
    StepAccounts(l.waiting, batch, l.submitted, l.arrived, l.ran);
    StepReports(l.keys, l.requests, finished, l.submitted, l.reported);
    RawLog(WithoutKeys(l.keys, SetOf(finished)), l.requests - SetOf(finished), l.waiting[|batch|..],
           l.submitted, l.arrived, l.ran + batch, l.reported + finished)
  }

  /** What arrived is what ran followed by what waits, and no two items have one id. */
  ghost predicate Accounts(waiting: seq<Item>, submitted: map<ID, Request>, arrived: seq<Item>, ran: seq<Item>) {
    && arrived == ran + waiting
    && NoDup(arrived)
    && (forall x :: x in arrived <==> x.request in submitted && x.data in submitted[x.request].data)
  }

  /** Each submitted request is either queued or reported, and it is reported once. */
  ghost predicate Reports(keys: seq<ID>, requests: map<ID, Request>, submitted: map<ID, Request>, reported: seq<ID>) {
    && (forall k :: k in keys ==> k in submitted && k in requests && submitted[k] == requests[k])
    && (forall k :: k in submitted <==> k in keys || k in reported)
    && (forall k :: k in reported ==> k !in keys)
    && (forall a, b :: 0 <= a < b < |reported| ==> reported[a] != reported[b])
  }

  /** A request is reported exactly when its last item has run. */
  ghost predicate ReportedWhenRan(l: Log) {
    forall k :: k in l.reported <==> k in l.submitted && forall d :: d in l.submitted[k].data ==> Item(k, d) in l.ran
  }

  lemma ReportedIffRan(q: Queue, l: Log)
    requires ValidQueue(q) && l.keys == q.keys && l.requests == q.requests && l.waiting == q.Waiting()
    ensures ReportedWhenRan(l)
  {
    WaitingMembers(q.keys, q.requests, q.done);
    forall k | k in l.submitted
      ensures k in l.reported <==> forall d :: d in l.submitted[k].data ==> Item(k, d) in l.ran
    {
      if k in q.keys {
        assert Tracked(k, q.requests[k], q.done[k]) && Known(k, q.requests, q.done);
        WaitingInMembers(k, q.requests[k].data, q.done[k]);
        SomethingWaits(k, q.requests[k].data, q.done[k]);
        var x := WaitingIn(k, q.requests[k].data, q.done[k])[0];
        assert x in q.Waiting();
        NotInBoth(l.ran, q.Waiting(), x);
        assert Item(k, x.data) == x;
      } else {
        forall d | d in l.submitted[k].data ensures Item(k, d) in l.ran {
          assert Item(k, d) in l.arrived;
        }
      }
    }
  }

  lemma NotInBoth(ran: seq<Item>, waiting: seq<Item>, x: Item)
    requires NoDup(ran + waiting) && x in waiting
    ensures x !in ran
  {
    var b :| 0 <= b < |waiting| && waiting[b] == x;
    assert (ran + waiting)[|ran| + b] == x;
    forall a | 0 <= a < |ran| ensures ran[a] != x {
      assert (ran + waiting)[a] == ran[a];
    }
  }

  lemma BatchIds(q: Queue, batch: seq<Item>, requestIds: seq<ID>, dataIds: seq<ID>)
    requires ValidQueue(q) && batch <= q.Waiting() && |requestIds| == |dataIds| == |batch|
    requires forall i :: 0 <= i < |batch| ==> requestIds[i] == batch[i].request && dataIds[i] == batch[i].data.id
    ensures forall i :: 0 <= i < |batch| ==> requestIds[i] in q.keys && dataIds[i] in q.done[requestIds[i]]
    ensures Drop(q.Waiting(), Pairs(requestIds, dataIds)) == q.Waiting()[|batch|..]
  {
    var w := q.Waiting();
    WaitingMembers(q.keys, q.requests, q.done);
    forall i | 0 <= i < |batch| ensures requestIds[i] in q.keys && dataIds[i] in q.done[requestIds[i]] {
      assert w[i] == batch[i] && w[i] in w;
      assert Tracked(w[i].request, q.requests[w[i].request], q.done[w[i].request]);
      assert w[i].data.id in DataIds(q.requests[w[i].request].data);
    }
    forall k | 0 <= k < |q.keys| ensures WellFormed(q.requests[q.keys[k]]) {
      assert Tracked(q.keys[k], q.requests[q.keys[k]], q.done[q.keys[k]]);
    }
    WaitingNoDup(q.keys, q.requests, q.done);
    forall i | 0 <= i < |w| ensures IdOf(w[i]) in Pairs(requestIds, dataIds) <==> i < |batch| {
      assert forall j :: 0 <= j < |batch| ==> (requestIds[j], dataIds[j]) == IdOf(w[j]);
    }
    DropPrefix(w, |batch|, Pairs(requestIds, dataIds));
  }

  lemma EnqueueAccounts(waiting: seq<Item>, r: Request, submitted: map<ID, Request>, arrived: seq<Item>, ran: seq<Item>)
    requires Accounts(waiting, submitted, arrived, ran) && r.id !in submitted && WellFormed(r)
    ensures Accounts(waiting + Items(r), submitted[r.id := r], arrived + Items(r), ran)
  {
    var all := arrived + Items(r);
    assert all == ran + (waiting + Items(r));
    ItemsMembers(r);
    forall a, b | 0 <= a < b < |all| ensures IdOf(all[a]) != IdOf(all[b]) {
      if a < |arrived| {
        assert all[a] in arrived;
        if b >= |arrived| { assert all[b] in Items(r); }
      }
    }
  }

  lemma EnqueueReports(keys: seq<ID>, requests: map<ID, Request>, r: Request, submitted: map<ID, Request>,
          reported: seq<ID>)
    requires Reports(keys, requests, submitted, reported) && r.id !in submitted
    ensures Reports(keys + [r.id], requests[r.id := r], submitted[r.id := r], reported)
  {
  }

  lemma ItemsMembers(r: Request)
    ensures forall x :: x in Items(r) <==> x.request == r.id && x.data in r.data
  {
    forall x: Item | x.request == r.id && x.data in r.data ensures x in Items(r) {
      var i :| 0 <= i < |r.data| && r.data[i] == x.data;
      assert Items(r)[i] == x;
    }
  }

  lemma StepAccounts(waiting: seq<Item>, batch: seq<Item>, submitted: map<ID, Request>, arrived: seq<Item>,
          ran: seq<Item>)
    requires Accounts(waiting, submitted, arrived, ran) && batch <= waiting
    ensures Accounts(waiting[|batch|..], submitted, arrived, ran + batch)
  {
    assert waiting == batch + waiting[|batch|..];
    assert arrived == (ran + batch) + waiting[|batch|..];
  }

  lemma StepReports(keys: seq<ID>, requests: map<ID, Request>, finished: seq<ID>, submitted: map<ID, Request>,
          reported: seq<ID>)
    requires Reports(keys, requests, submitted, reported)
    requires forall k :: k in finished ==> k in keys
    requires forall a, b :: 0 <= a < b < |finished| ==> finished[a] != finished[b]
    ensures Reports(WithoutKeys(keys, SetOf(finished)), requests - SetOf(finished), submitted, reported + finished)
  {
    WithoutKeysMembers(keys, SetOf(finished));
    var all := reported + finished;
    forall a, b | 0 <= a < b < |all| ensures all[a] != all[b] {
      if a < |reported| <= b { assert all[a] in reported && all[b] in finished; }
    }
  }

  ghost function Finished(ids: set<ID>, done: map<ID, map<ID, bool>>): set<ID> {
    set k | k in ids && k in done && AllTrue(done[k])
  }

  ghost function Pairs(requestIds: seq<ID>, dataIds: seq<ID>): set<(ID, ID)>
    requires |requestIds| == |dataIds|
  {
    set i | 0 <= i < |requestIds| :: (requestIds[i], dataIds[i])
  }

  lemma PairsGrow(requestIds: seq<ID>, dataIds: seq<ID>, i: nat)
    requires i < |requestIds| == |dataIds|
    ensures Pairs(requestIds[..i + 1], dataIds[..i + 1]) == Pairs(requestIds[..i], dataIds[..i])
              + {(requestIds[i], dataIds[i])}
  {
    var r, d := requestIds[..i + 1], dataIds[..i + 1];
    forall p | p in Pairs(requestIds[..i], dataIds[..i]) ensures p in Pairs(r, d) {
      var j :| 0 <= j < i && p == (requestIds[..i][j], dataIds[..i][j]);
      assert p == (r[j], d[j]);
    }
    assert (requestIds[i], dataIds[i]) == (r[i], d[i]);
    forall p | p in Pairs(r, d) && p != (requestIds[i], dataIds[i]) ensures p in Pairs(requestIds[..i], dataIds[..i]) {
      var j :| 0 <= j < i + 1 && p == (r[j], d[j]);
      assert p == (requestIds[..i][j], dataIds[..i][j]);
    }
  }

  lemma WaitingInStep(k: ID, data: seq<Data>, flags: map<ID, bool>, i: nat)
    requires i < |data| && Flagged(data, flags)
    ensures flags[data[i].id] ==> WaitingIn(k, data[i..], flags) == WaitingIn(k, data[i + 1..], flags)
    ensures !flags[data[i].id] ==>
              WaitingIn(k, data[i..], flags) == [Item(k, data[i])] + WaitingIn(k, data[i + 1..], flags)
  {
    assert data[i..][1..] == data[i + 1..];
  }

  lemma SomethingWaits(k: ID, data: seq<Data>, flags: map<ID, bool>)
    requires Flagged(data, flags) && flags.Keys == DataIds(data) && !AllTrue(flags)
    ensures WaitingIn(k, data, flags) != []
  {
    WaitingInMembers(k, data, flags);
    var d :| d in flags && !flags[d];
    var e :| e in data && e.id == d;
    assert Item(k, e) in WaitingIn(k, data, flags);
  }

  /** WaitingIn from the i-th item on. */
  function WaitingFrom(k: ID, data: seq<Data>, flags: map<ID, bool>, i: nat): seq<Item>
    requires i <= |data| && Flagged(data, flags)
    decreases |data| - i
  {
    if i == |data| then []
    else if flags[data[i].id] then WaitingFrom(k, data, flags, i + 1)
    else [Item(k, data[i])] + WaitingFrom(k, data, flags, i + 1)
  }

  lemma {:induction false} WaitingFromStart(k: ID, data: seq<Data>, flags: map<ID, bool>, i: nat)
    requires i <= |data| && Flagged(data, flags)
    ensures WaitingFrom(k, data, flags, i) == WaitingIn(k, data[i..], flags)
    ensures i == 0 ==> data[i..] == data
    decreases |data| - i
  {
    if i < |data| {
      WaitingFromStart(k, data, flags, i + 1);
      WaitingInStep(k, data, flags, i);
    }
  }

  /** What the next waiting item does to the iteration. */
  lemma IterStep(w: seq<Item>, items: seq<Item>, x: Item, rest: seq<Item>, modality: ID, model: ID,
          limit: Option<int>, count: nat, total: nat)
    requires w == items + ([x] + rest) && GoingOn(w, |items|, modality, model, limit, count)
    requires total == count + |items| + 1
    ensures !Matches(x, modality, model) ==>
              Stops(w, modality, model, limit, count) && items == w[..Yielded(w, modality, model, limit, count)]
    ensures Matches(x, modality, model) && limit == Some(total) ==>
              Stops(w, modality, model, limit, count) && items + [x] == w[..Yielded(w, modality, model, limit, count)]
    ensures Matches(x, modality, model) && limit != Some(total) ==>
              w == items + [x] + rest && GoingOn(w, |items + [x]|, modality, model, limit, count)
  {
    assert w[|items|] == x && w[..|items|] == items && w[..|items| + 1] == items + [x];
    YieldOne(w, |items|, modality, model, limit, count);
  }

  /** The first `n` of `w` have been yielded, and nothing has stopped the iteration yet. */
  predicate GoingOn(w: seq<Item>, n: nat, modality: ID, model: ID, limit: Option<int>, count: nat) {
    n == 0 || (n <= |w| && Matches(w[n - 1], modality, model) && limit != Some(count + n)
        && GoingOn(w, n - 1, modality, model, limit, count))
  }

  lemma {:induction false} GoingOnMeans(w: seq<Item>, n: nat, modality: ID, model: ID, limit: Option<int>, count: nat)
    requires n <= |w| && GoingOn(w, n, modality, model, limit, count)
    ensures Stops(w, modality, model, limit, count) == Stops(w[n..], modality, model, limit, count + n)
    ensures Yielded(w, modality, model, limit, count) == n + Yielded(w[n..], modality, model, limit, count + n)
  {
    if n > 0 {
      GoingOnMeans(w, n - 1, modality, model, limit, count);
      assert w[n - 1..][0] == w[n - 1] && w[n - 1..][1..] == w[n..];
    } else {
      assert w[0..] == w;
    }
  }

  lemma YieldOne(w: seq<Item>, n: nat, modality: ID, model: ID, limit: Option<int>, count: nat)
    requires n < |w| && GoingOn(w, n, modality, model, limit, count)
    ensures !Matches(w[n], modality, model) ==>
              Stops(w, modality, model, limit, count) && Yielded(w, modality, model, limit, count) == n
    ensures Matches(w[n], modality, model) && limit == Some(count + n + 1) ==>
              Stops(w, modality, model, limit, count) && Yielded(w, modality, model, limit, count) == n + 1
    ensures Matches(w[n], modality, model) && limit != Some(count + n + 1) ==>
              GoingOn(w, n + 1, modality, model, limit, count)
  {
    GoingOnMeans(w, n, modality, model, limit, count);
    assert w[n..][0] == w[n] && w[n..][1..] == w[n + 1..];
  }

  lemma NothingMore(w: seq<Item>, n: nat, modality: ID, model: ID, limit: Option<int>, count: nat)
    requires n <= |w| && w[n..] == [] && GoingOn(w, n, modality, model, limit, count)
    ensures w[..n] == w && Yielded(w, modality, model, limit, count) == n && !Stops(w, modality, model, limit, count)
  {
    GoingOnMeans(w, n, modality, model, limit, count);
    assert |w[n..]| == |w| - n;
  }

  lemma GoesOn(done: seq<Item>, u: seq<Item>, modality: ID, model: ID, limit: Option<int>)
    requires !Stops(done, modality, model, limit, 0) && !Stops(u, modality, model, limit, |done|)
    ensures !Stops(done + u, modality, model, limit, 0)
  {
    YieldedConcat(done, u, modality, model, limit, 0);
  }

  lemma NeverStopped(w: seq<Item>, modality: ID, model: ID, limit: Option<int>)
    requires !Stops(w, modality, model, limit, 0)
    ensures w == w[..Cap(Leading(w, modality, model), limit)]
  {
    assert w == w + [];
    YieldedConcat(w, [], modality, model, limit, 0);
    YieldedIsCap(w, modality, model, limit, 0);
  }

  lemma StoppedAt(done: seq<Item>, u: seq<Item>, rest: seq<Item>, modality: ID, model: ID, limit: Option<int>)
    requires !Stops(done, modality, model, limit, 0) && Stops(u, modality, model, limit, |done|)
    ensures var w := done + (u + rest);
            done + u[..Yielded(u, modality, model, limit, |done|)] == w[..Cap(Leading(w, modality, model), limit)]
  {
    var w := done + (u + rest);
    var y := Yielded(u, modality, model, limit, |done|);
    assert Yielded(w, modality, model, limit, 0) == |done| + y by {
      YieldedConcat(done, u + rest, modality, model, limit, 0);
      YieldedConcat(u, rest, modality, model, limit, |done|);
    }
    assert Cap(Leading(w, modality, model), limit) == |done| + y by {
      YieldedIsCap(w, modality, model, limit, 0);
    }
    assert w[..|done| + y] == done + u[..y];
  }

  lemma {:induction false} WithoutKeysTwice(keys: seq<ID>, a: set<ID>, b: set<ID>)
    ensures WithoutKeys(WithoutKeys(keys, a), b) == WithoutKeys(keys, a + b)
  {
    if keys != [] {
      WithoutKeysTwice(keys[1..], a, b);
      if keys[0] in a {
        assert WithoutKeys(keys, a) == WithoutKeys(keys[1..], a);
        assert WithoutKeys(keys, a + b) == WithoutKeys(keys[1..], a + b);
      } else {
        assert WithoutKeys(keys, a)[1..] == WithoutKeys(keys[1..], a);
      }
    }
  }

  lemma {:induction false} WithoutNothing(keys: seq<ID>)
    ensures WithoutKeys(keys, {}) == keys
  {
    if keys != [] { WithoutNothing(keys[1..]); }
  }

  lemma MarkOne(before: map<ID, map<ID, bool>>, done: map<ID, map<ID, bool>>, requestIds: seq<ID>, dataIds: seq<ID>,
          i: nat)
    requires i < |requestIds| == |dataIds| && requestIds[i] in done && dataIds[i] in done[requestIds[i]]
    requires Marked(before, done, Pairs(requestIds[..i], dataIds[..i]))
    ensures Marked(before, done[requestIds[i] := done[requestIds[i]][dataIds[i] := true]],
              Pairs(requestIds[..i + 1], dataIds[..i + 1]))
  {
    var k, d := requestIds[i], dataIds[i];
    var after := done[k := done[k][d := true]];
    PairsGrow(requestIds, dataIds, i);
    forall x <- after ensures MarkedIn(x, before[x], after[x], Pairs(requestIds[..i + 1], dataIds[..i + 1])) {
      assert MarkedIn(x, before[x], done[x], Pairs(requestIds[..i], dataIds[..i]));
    }
  }

  ghost function Enqueued(q: Queue, r: Request, flags: map<ID, bool>): Queue {
    Queue(q.keys + [r.id], q.requests[r.id := r], q.done[r.id := flags])
  }

  lemma EnqueueKeeps(q: Queue, r: Request, flags: map<ID, bool>)
    requires ValidQueue(q) && WellFormed(r) && r.id !in q.keys
    requires flags.Keys == DataIds(r.data) && forall d :: d in flags ==> !flags[d]
    ensures ValidQueue(Enqueued(q, r, flags)) && Enqueued(q, r, flags).Waiting() == q.Waiting() + Items(r)
  {
    EnqueueValid(q, r, flags);
    EnqueueWaiting(q, r, flags);
  }

  lemma EnqueueValid(q: Queue, r: Request, flags: map<ID, bool>)
    requires ValidQueue(q) && WellFormed(r) && r.id !in q.keys
    requires flags.Keys == DataIds(r.data) && forall d :: d in flags ==> !flags[d]
    ensures ValidQueue(Enqueued(q, r, flags))
  {
    EnqueueTracked(q, r, flags);
    EnqueueKeys(q, r, flags);
    TrackedIsKnown(Enqueued(q, r, flags));
  }

  lemma EnqueueKeys(q: Queue, r: Request, flags: map<ID, bool>)
    requires forall a, b :: 0 <= a < b < |q.keys| ==> q.keys[a] != q.keys[b]
    requires r.id !in q.keys
    requires (forall k :: k in q.requests <==> k in q.keys) && (forall k :: k in q.done <==> k in q.keys)
    ensures var t := Enqueued(q, r, flags);
            && (forall a, b :: 0 <= a < b < |t.keys| ==> t.keys[a] != t.keys[b])
            && (forall k :: k in t.requests <==> k in t.keys) && (forall k :: k in t.done <==> k in t.keys)
  {
    var t := Enqueued(q, r, flags);
    assert forall k :: k in t.keys <==> k in q.keys || k == r.id;
    forall a, b | 0 <= a < b < |t.keys| ensures t.keys[a] != t.keys[b] {
      if b == |q.keys| { assert t.keys[a] in q.keys; }
    }
  }

  lemma EnqueueTracked(q: Queue, r: Request, flags: map<ID, bool>)
    requires ValidQueue(q) && WellFormed(r) && r.id !in q.keys
    requires flags.Keys == DataIds(r.data) && forall d :: d in flags ==> !flags[d]
    ensures var t := Enqueued(q, r, flags);
            forall k :: k in t.keys ==> k in t.requests && k in t.done && Tracked(k, t.requests[k], t.done[k])
  {
    var t := Enqueued(q, r, flags);
    assert !AllTrue(flags) by { assert r.data[0] in r.data && r.data[0].id in flags; }
    forall k | k in t.keys ensures k in t.requests && k in t.done && Tracked(k, t.requests[k], t.done[k]) {
      if k != r.id { assert k in q.keys && Tracked(k, q.requests[k], q.done[k]); }
    }
  }

  lemma EnqueueWaiting(q: Queue, r: Request, flags: map<ID, bool>)
    requires AllKnown(q.keys, q.requests, q.done) && r.id !in q.keys
    requires flags.Keys == DataIds(r.data) && forall d :: d in flags ==> !flags[d]
    ensures AllKnown(Enqueued(q, r, flags).keys, Enqueued(q, r, flags).requests, Enqueued(q, r, flags).done)
    ensures Enqueued(q, r, flags).Waiting() == q.Waiting() + Items(r)
  {
    var t := Enqueued(q, r, flags);
    forall i | 0 <= i < |q.keys|
      ensures q.keys[i] in t.requests && q.keys[i] in t.done && t.requests[q.keys[i]] == q.requests[q.keys[i]]
                && t.done[q.keys[i]] == q.done[q.keys[i]] {
      assert q.keys[i] in q.keys && Known(q.keys[i], q.requests, q.done);
    }
    WaitingOfFrame(q.keys, q.requests, q.done, t.requests, t.done);
    forall i | 0 <= i < |r.data| ensures r.data[i].id in flags { assert r.data[i] in r.data; }
    WaitingOfAppend(q.keys, r.id, t.requests, t.done);
    AllWait(r, 0, flags);
    assert r.data[0..] == r.data && Items(r)[0..] == Items(r);
  }

  /** Setting the flags of some items and removing the requests that this finishes. */
  lemma MarkOutcome(q: Queue, marked: map<ID, map<ID, bool>>, requestIds: seq<ID>, dataIds: seq<ID>)
    requires ValidQueue(q) && |requestIds| == |dataIds| && (forall k :: k in requestIds ==> k in q.keys)
    requires Marked(q.done, marked, Pairs(requestIds, dataIds))
    ensures var gone := Finished(SetOf(requestIds), marked);
            var t := Queue(WithoutKeys(q.keys, gone), q.requests - gone, marked - gone);
            && ValidQueue(t)
            && t.Waiting() == Drop(q.Waiting(), Pairs(requestIds, dataIds))
            && forall k :: k in gone <==> k in requestIds && !exists x :: x in t.Waiting() && x.request == k
  {
    var ran, gone := Pairs(requestIds, dataIds), Finished(SetOf(requestIds), marked);
    RemovalKeepsValid(q, marked, ran, SetOf(requestIds), gone);
    MarkWaiting(q, marked, ran, gone);
    GoneAreFinished(q, marked, requestIds, ran);
  }

  lemma GoneAreFinished(q: Queue, marked: map<ID, map<ID, bool>>, requestIds: seq<ID>, ran: set<(ID, ID)>)
    requires ValidQueue(q) && Marked(q.done, marked, ran) && AllKnown(q.keys, q.requests, marked)
    requires forall k :: k in requestIds ==> k in q.keys
    ensures forall k :: k in Finished(SetOf(requestIds), marked) <==>
                          k in requestIds && !exists x :: x in WaitingOf(q.keys, q.requests, marked) && x.request == k
  {
    forall k | k in requestIds
      ensures k in marked && (AllTrue(marked[k]) <==>
                !exists x :: x in WaitingOf(q.keys, q.requests, marked) && x.request == k)
    {
      assert MarkedIn(k, q.done[k], marked[k], ran);
      FinishedHasNothing(q, marked, k);
    }
  }

  lemma MarkWaiting(q: Queue, marked: map<ID, map<ID, bool>>, ran: set<(ID, ID)>, gone: set<ID>)
    requires ValidQueue(q) && Marked(q.done, marked, ran)
    requires forall k :: k in gone && k in marked ==> AllTrue(marked[k])
    ensures AllKnown(q.keys, q.requests, marked)
    ensures AllKnown(WithoutKeys(q.keys, gone), q.requests - gone, marked - gone)
    ensures WaitingOf(WithoutKeys(q.keys, gone), q.requests - gone, marked - gone)
              == WaitingOf(q.keys, q.requests, marked)
    ensures WaitingOf(q.keys, q.requests, marked) == Drop(q.Waiting(), ran)
  {
    MarkedKnown(q, marked, ran);
    MarkDrops(q.keys, q, marked, ran);
    RemovalKeepsWaiting(q.keys, q.requests, marked, gone);
  }

  lemma MarkedKnown(q: Queue, marked: map<ID, map<ID, bool>>, ran: set<(ID, ID)>)
    requires ValidQueue(q) && Marked(q.done, marked, ran)
    ensures AllKnown(q.keys, q.requests, marked)
  {
    forall i | 0 <= i < |q.keys| ensures Known(q.keys[i], q.requests, marked) {
      assert Known(q.keys[i], q.requests, q.done);
      assert MarkedIn(q.keys[i], q.done[q.keys[i]], marked[q.keys[i]], ran);
    }
  }

  lemma FinishedHasNothing(q: Queue, marked: map<ID, map<ID, bool>>, k: ID)
    requires ValidQueue(q) && k in q.keys && k in marked && marked[k].Keys == q.done[k].Keys
    requires AllKnown(q.keys, q.requests, marked)
    ensures AllTrue(marked[k]) <==> !exists x :: x in WaitingOf(q.keys, q.requests, marked) && x.request == k
  {
    assert Tracked(k, q.requests[k], q.done[k]);
    WaitingMembers(q.keys, q.requests, marked);
    if !AllTrue(marked[k]) {
      var d :| d in marked[k] && !marked[k][d];
      assert d in DataIds(q.requests[k].data);
      var e :| e in q.requests[k].data && e.id == d;
      assert Item(k, e) in WaitingOf(q.keys, q.requests, marked);
    }
  }

  lemma RemovalKeepsValid(q: Queue, marked: map<ID, map<ID, bool>>, ran: set<(ID, ID)>, touched: set<ID>, gone: set<ID>)
    requires ValidQueue(q) && Marked(q.done, marked, ran)
    requires forall p :: p in ran ==> p.0 in touched
    requires forall k :: k in touched ==> k in q.keys && (k in gone || !AllTrue(marked[k]))
    ensures ValidQueue(Queue(WithoutKeys(q.keys, gone), q.requests - gone, marked - gone))
  {
    var t := Queue(WithoutKeys(q.keys, gone), q.requests - gone, marked - gone);
    WithoutKeysMembers(q.keys, gone);
    WithoutKeysDistinct(q.keys, gone);
    forall k | k in t.keys ensures Tracked(k, t.requests[k], t.done[k]) {
      assert Tracked(k, q.requests[k], q.done[k]) && MarkedIn(k, q.done[k], marked[k], ran);
      if k !in touched {
        var d :| d in q.done[k] && !q.done[k][d];
        assert (k, d) !in ran;
        assert !marked[k][d];
      }
    }
    TrackedIsKnown(t);
  }
}
