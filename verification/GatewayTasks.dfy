/**
 The gateway's table of deployed unit tasks. Applications declare what they use and what they no longer use;
 declarations are counted, and a deployment either succeeds as a whole or leaves no trace.
*/
module GatewayTasks {
  import opened Sequences

  /** Tasks with the same key are equivalent. */
  type Key = nat

  type Id = nat

  datatype TaskState = Deploying | Ready | TearingDown

  /** Five maps on task ids. */
  datatype Tables = Tables(tasks: map<Id, Key>, states: map<Id, TaskState>, names: map<Id, nat>, uuids: map<Id, nat>,
          usage: map<Id, nat>)

  /** `index` is the inverse of `tasks`, so no two entries are equivalent; `out` are the outstanding declarations. */
  ghost predicate Counted(tasks: map<Id, Key>, usage: map<Id, nat>, index: map<Key, Id>, out: multiset<Key>) {
    && usage.Keys == tasks.Keys && index.Keys == tasks.Values
    && (forall id {:trigger IdOk(tasks, usage, index, out, id)} :: IdOk(tasks, usage, index, out, id))
    && (forall k {:trigger KeyOk(tasks, index, out, k)} :: KeyOk(tasks, index, out, k))
  }

  /** An entry's counter is the number of outstanding declarations of its class. */
  ghost predicate IdOk(tasks: map<Id, Key>, usage: map<Id, nat>, index: map<Key, Id>, out: multiset<Key>, id: Id) {
    id in tasks ==> tasks[id] in index && index[tasks[id]] == id && id in usage && usage[id] == out[tasks[id]]
  }

  /** What is declared is deployed. */
  ghost predicate KeyOk(tasks: map<Id, Key>, index: map<Key, Id>, out: multiset<Key>, k: Key) {
    if k in index then index[k] in tasks && tasks[index[k]] == k else out[k] == 0
  }

  ghost predicate ReadyIffUsed(states: map<Id, TaskState>, usage: map<Id, nat>) {
    states.Keys == usage.Keys && forall id {:trigger StateOk(states, usage, id)} :: StateOk(states, usage, id)
  }

  ghost predicate StateOk(states: map<Id, TaskState>, usage: map<Id, nat>, id: Id) {
    id in states && id in usage ==> states[id] == if usage[id] > 0 then Ready else TearingDown
  }

  /** What holds whenever the lock is released. */
  ghost predicate Consistent(t: Tables, index: map<Key, Id>, out: multiset<Key>) {
    && t.names.Keys == t.tasks.Keys && t.uuids.Keys == t.tasks.Keys
    && Counted(t.tasks, t.usage, index, out) && ReadyIffUsed(t.states, t.usage)
  }

  datatype RawTable = RawTable(t: Tables, index: map<Key, Id>, out: multiset<Key>)

  /** A table with its index and the declarations that it counts. */
  type Table = r: RawTable | Consistent(r.t, r.index, r.out)
    ghost witness RawTable(Tables(map[], map[], map[], map[], map[]), map[], multiset{})

  /** The statement in its own words: equal keys, inequivalent entries, exact counters, ready exactly if used. */
  lemma ConsistentMeans(t: Tables, index: map<Key, Id>, out: multiset<Key>)
    requires Consistent(t, index, out)
    ensures t.tasks.Keys == t.states.Keys == t.names.Keys == t.uuids.Keys == t.usage.Keys
    ensures forall i, j :: i in t.tasks && j in t.tasks && i != j ==> t.tasks[i] != t.tasks[j]
    ensures forall id :: id in t.tasks ==>
              t.usage[id] == out[t.tasks[id]] && t.states[id] == if t.usage[id] > 0 then Ready else TearingDown
    ensures forall k :: out[k] > 0 ==> k in t.tasks.Values
  {
    forall i, j | i in t.tasks && j in t.tasks && i != j ensures t.tasks[i] != t.tasks[j] {
      assert IdOk(t.tasks, t.usage, index, out, i) && IdOk(t.tasks, t.usage, index, out, j);
    }
    forall id | id in t.tasks
      ensures t.usage[id] == out[t.tasks[id]] && t.states[id] == if t.usage[id] > 0 then Ready else TearingDown
    {
      assert IdOk(t.tasks, t.usage, index, out, id) && StateOk(t.states, t.usage, id);
    }
    forall k | out[k] > 0 ensures k in t.tasks.Values { assert KeyOk(t.tasks, index, out, k); }
  }

  // ---- counting one declaration ----

  lemma NewEntry(tasks: map<Id, Key>, usage: map<Id, nat>, index: map<Key, Id>, out: multiset<Key>, id: Id, k: Key)
    requires Counted(tasks, usage, index, out) && id !in tasks && k !in tasks.Values
    ensures Counted(tasks[id := k], usage[id := 1], index[k := id], out + multiset{k})
  {
    var tasks', usage', index', out' := tasks[id := k], usage[id := 1], index[k := id], out + multiset{k};
    assert KeyOk(tasks, index, out, k);
    assert tasks'.Values == tasks.Values + {k} by {
      assert tasks'[id] == k;
      forall x | x in tasks.Values ensures x in tasks'.Values {
        var i :| i in tasks && tasks[i] == x;
        assert i in tasks' && tasks'[i] == x;
      }
    }
    forall i ensures IdOk(tasks', usage', index', out', i) { assert IdOk(tasks, usage, index, out, i); }
    forall x ensures KeyOk(tasks', index', out', x) { assert KeyOk(tasks, index, out, x); }
  }

  lemma OldEntry(tasks: map<Id, Key>, usage: map<Id, nat>, index: map<Key, Id>, out: multiset<Key>, id: Id)
    requires Counted(tasks, usage, index, out) && id in tasks
    ensures Counted(tasks, usage[id := usage[id] + 1], index, out + multiset{tasks[id]})
  {
    var usage', out' := usage[id := usage[id] + 1], out + multiset{tasks[id]};
    assert IdOk(tasks, usage, index, out, id);
    forall i ensures IdOk(tasks, usage', index, out', i) { assert IdOk(tasks, usage, index, out, i); }
    forall x ensures KeyOk(tasks, index, out', x) { assert KeyOk(tasks, index, out, x); }
  }

  lemma ReleaseEntry(tasks: map<Id, Key>, usage: map<Id, nat>, index: map<Key, Id>, out: multiset<Key>, id: Id)
    requires Counted(tasks, usage, index, out) && id in tasks && usage[id] > 0
    ensures Counted(tasks, usage[id := usage[id] - 1], index, out - multiset{tasks[id]})
  {
    var usage', out' := usage[id := usage[id] - 1], out - multiset{tasks[id]};
    assert IdOk(tasks, usage, index, out, id);
    forall i ensures IdOk(tasks, usage', index, out', i) { assert IdOk(tasks, usage, index, out, i); }
    forall x ensures KeyOk(tasks, index, out', x) { assert KeyOk(tasks, index, out, x); }
  }

  lemma DropEntry(tasks: map<Id, Key>, usage: map<Id, nat>, index: map<Key, Id>, out: multiset<Key>, id: Id)
    requires Counted(tasks, usage, index, out) && id in tasks && usage[id] == 0
    ensures Counted(tasks - {id}, usage - {id}, index - {tasks[id]}, out)
  {
    var k, tasks' := tasks[id], tasks - {id};
    assert IdOk(tasks, usage, index, out, id);
    forall i ensures IdOk(tasks', usage - {id}, index - {k}, out, i) { assert IdOk(tasks, usage, index, out, i); }
    forall x ensures KeyOk(tasks', index - {k}, out, x) { assert KeyOk(tasks, index, out, x); }
    assert tasks'.Values == tasks.Values - {k} by {
      forall x | x in tasks.Values - {k} ensures x in tasks'.Values {
        assert KeyOk(tasks, index, out, x);
        assert index[x] in tasks' && tasks'[index[x]] == x;
      }
      forall i | i in tasks' ensures tasks'[i] != k { assert IdOk(tasks, usage, index, out, i); }
    }
  }

  lemma DropState(states: map<Id, TaskState>, usage: map<Id, nat>, id: Id)
    requires ReadyIffUsed(states, usage)
    ensures ReadyIffUsed(states - {id}, usage - {id})
  {
    forall i ensures StateOk(states - {id}, usage - {id}, i) { assert StateOk(states, usage, i); }
  }

  /** del on all five maps. */
  function Dropped(t: Tables, id: Id): Tables {
    Tables(t.tasks - {id}, t.states - {id}, t.names - {id}, t.uuids - {id}, t.usage - {id})
  }

  lemma DropKeeps(t: Tables, index: map<Key, Id>, out: multiset<Key>, id: Id)
    requires Consistent(t, index, out) && id in t.tasks && t.usage[id] == 0
    ensures Consistent(Dropped(t, id), index - {t.tasks[id]}, out)
  {
    DropEntry(t.tasks, t.usage, index, out, id);
    DropState(t.states, t.usage, id);
    assert Dropped(t, id).names.Keys == t.names.Keys - {id};
    assert Dropped(t, id).uuids.Keys == t.uuids.Keys - {id};
    assert Dropped(t, id).tasks.Keys == t.tasks.Keys - {id};
  }

  // ---- declaring ----

  /** The entries after the declarations `keys` have been counted on the table `b`; `added` are new. */
  ghost predicate Assigned(b: Tables, t: Tables, index: map<Key, Id>, keys: seq<Key>, added: seq<Id>) {
    && t.states.Keys == t.tasks.Keys && t.uuids.Keys == t.tasks.Keys && t.names == b.names
        && b.tasks.Keys <= t.tasks.Keys
    && (forall k {:trigger k in keys} :: k in keys ==> k in index)
    && (forall id {:trigger EntryOk(b, t, keys, added, id)} :: id in t.tasks ==> EntryOk(b, t, keys, added, id))
    && (forall id {:trigger id in added} :: id in added ==> id in t.tasks && id !in b.tasks)
  }

  /** An entry is new and declared, or it is an old one that only changes when it is declared. */
  ghost predicate EntryOk(b: Tables, t: Tables, keys: seq<Key>, added: seq<Id>, id: Id) {
    id in t.tasks &&
    if id in b.tasks then
      && t.tasks[id] == b.tasks[id]
      && id in b.states && id in t.states && t.states[id] == b.states[id]
      && (t.tasks[id] !in keys ==> id in b.usage && id in t.usage && t.usage[id] == b.usage[id])
    else id in added && t.tasks[id] in keys
  }

  ghost function WithOld(t: Tables, id: Id): Tables
    requires id in t.usage
  {
    t.(usage := t.usage[id := t.usage[id] + 1])
  }

  ghost function WithNew(t: Tables, id: Id, k: Key): Tables {
    t.(tasks := t.tasks[id := k], states := t.states[id := Deploying], uuids := t.uuids[id := id],
        usage := t.usage[id := 1])
  }

  /** `ids` are the entries of the declared classes. */
  ghost predicate IdsFor(tasks: map<Id, Key>, keys: seq<Key>, ids: seq<Id>) {
    |ids| == |keys| && forall i {:trigger ids[i]} :: 0 <= i < |ids| ==> ids[i] in tasks && tasks[ids[i]] == keys[i]
  }

  ghost predicate Extends(before: map<Id, Key>, after: map<Id, Key>) {
    forall i {:trigger i in before} :: i in before ==> i in after && after[i] == before[i]
  }

  lemma IdsGrow(before: map<Id, Key>, after: map<Id, Key>, keys: seq<Key>, ids: seq<Id>, k: Key, id: Id)
    requires IdsFor(before, keys, ids) && Extends(before, after) && id in after && after[id] == k
    ensures IdsFor(after, keys + [k], ids + [id])
  {
  }

  lemma AssignOld(b: Tables, t: Tables, index: map<Key, Id>, keys: seq<Key>, added: seq<Id>, id: Id)
    requires Assigned(b, t, index, keys, added) && id in t.tasks && id in t.usage && t.tasks[id] in index
    ensures Assigned(b, WithOld(t, id), index, keys + [t.tasks[id]], added)
  {
    forall i | i in t.tasks ensures EntryOk(b, WithOld(t, id), keys + [t.tasks[id]], added, i) {
      assert EntryOk(b, t, keys, added, i);
    }
  }

  lemma AssignNew(b: Tables, t: Tables, index: map<Key, Id>, keys: seq<Key>, added: seq<Id>, id: Id, k: Key)
    requires Assigned(b, t, index, keys, added) && id !in t.tasks
    ensures Assigned(b, WithNew(t, id, k), index[k := id], keys + [k], added + [id])
  {
    forall i | i in t.tasks[id := k] ensures EntryOk(b, WithNew(t, id, k), keys + [k], added + [id], i) {
      if i != id { assert EntryOk(b, t, keys, added, i); }
    }
  }

  /** The new entries are for the declared classes that were not deployed. */
  lemma NewClasses(b: Tables, t: Tables, bIndex: map<Key, Id>, index: map<Key, Id>, was: multiset<Key>,
          out: multiset<Key>, keys: seq<Key>, added: seq<Id>)
    requires Counted(b.tasks, b.usage, bIndex, was) && Counted(t.tasks, t.usage, index, out)
    requires Assigned(b, t, index, keys, added)
    ensures forall id :: id in added ==> t.tasks[id] in keys && t.tasks[id] !in b.tasks.Values
    ensures forall k :: k in keys && k !in b.tasks.Values ==> exists id :: id in added && t.tasks[id] == k
  {
    forall id | id in added ensures t.tasks[id] in keys && t.tasks[id] !in b.tasks.Values {
      assert EntryOk(b, t, keys, added, id) && IdOk(t.tasks, t.usage, index, out, id);
      forall i | i in b.tasks ensures b.tasks[i] != t.tasks[id] {
        assert EntryOk(b, t, keys, added, i) && IdOk(t.tasks, t.usage, index, out, i);
      }
    }
    forall k | k in keys && k !in b.tasks.Values ensures exists id :: id in added && t.tasks[id] == k {
      assert KeyOk(t.tasks, index, out, k) && EntryOk(b, t, keys, added, index[k]);
    }
  }

  /** Each declared class without an entry can be created, or deployed. */
  ghost predicate AllNewOk(tasks: map<Id, Key>, keys: seq<Key>, ok: Key -> bool) {
    forall k {:trigger k in keys} :: k in keys && k !in tasks.Values ==> ok(k)
  }

  ghost predicate OnlyNew(before: map<Id, Key>, after: map<Id, Key>, keys: seq<Key>) {
    forall id {:trigger id in after} :: id in after && id !in before ==> after[id] in keys
  }

  /** An entry that was not there is for a declared class. */
  lemma OnlyDeclared(b: Tables, t: Tables, index: map<Key, Id>, keys: seq<Key>, added: seq<Id>)
    requires Assigned(b, t, index, keys, added)
    ensures OnlyNew(b.tasks, t.tasks, keys)
  {
    forall id | id in t.tasks && id !in b.tasks ensures t.tasks[id] in keys { assert EntryOk(b, t, keys, added, id); }
  }

  /** After the last loop the table is consistent again. */
  lemma Settled(b: Tables, t: Tables, t': Tables, bIndex: map<Key, Id>, index: map<Key, Id>, was: multiset<Key>,
          out: multiset<Key>, keys: seq<Key>, added: seq<Id>)
    requires Consistent(b, bIndex, was) && Counted(t.tasks, t.usage, index, out) && out == was + multiset(keys)
    requires Assigned(b, t, index, keys, added)
    requires t' == t.(names := t'.names, states := t'.states)
    requires forall id :: id in t'.names <==> id in b.names || id in added
    requires t'.states.Keys == t.states.Keys
    requires forall id :: id in t.states ==> t'.states[id] == if t.tasks[id] in keys then Ready else t.states[id]
    ensures Consistent(t', index, out)
    ensures Extends(b.tasks, t'.tasks)
  {
    forall id
      ensures StateOk(t'.states, t'.usage, id) && (id in t'.names <==> id in t.tasks)
                && (id in b.tasks ==> id in t.tasks && t.tasks[id] == b.tasks[id]) {
      if id in t.tasks {
        assert EntryOk(b, t, keys, added, id) && IdOk(t.tasks, t.usage, index, out, id)
            && StateOk(b.states, b.usage, id);
        if t.tasks[id] in keys { assert t.tasks[id] in multiset(keys); }
      }
    }
    assert t'.names.Keys == t.tasks.Keys;
  }

  // ---- releasing ----

  /** Nobody gives back more than is outstanding. */
  ghost predicate Within(deployed: set<Key>, keys: seq<Key>, out: multiset<Key>) {
    forall k {:trigger k in keys} :: k in keys && k in deployed ==> multiset(keys)[k] <= out[k]
  }

  /** The declarations are given back one by one, until one of them is not outstanding. */
  ghost predicate StoppedAt(deployed: set<Key>, keys: seq<Key>, was: multiset<Key>, now: multiset<Key>, i: nat) {
    && i < |keys| && Within(deployed, keys[..i], was) && keys[i] in deployed && !Within(deployed, keys[..i + 1], was)
    && now == was - multiset(keys[..i])
  }

  /** `last` are the entries, each once, that were released down to zero. */
  ghost predicate IsLast(tasks: map<Id, Key>, usage: map<Id, nat>, keys: seq<Key>, last: seq<Id>) {
    && usage.Keys == tasks.Keys
    && (forall id {:trigger id in last} :: id in last <==> id in tasks && tasks[id] in keys && usage[id] == 0)
    && (forall i, j {:trigger last[i], last[j]} :: 0 <= i < j < |last| ==> last[i] != last[j])
  }

  lemma WithinStep(deployed: set<Key>, keys: seq<Key>, i: nat, was: multiset<Key>)
    requires i < |keys| && Within(deployed, keys[..i], was)
    ensures keys[..i + 1] == keys[..i] + [keys[i]]
    ensures was - multiset(keys[..i + 1]) == was - multiset(keys[..i]) - multiset{keys[i]}
    ensures keys[i] !in deployed || (was - multiset(keys[..i]))[keys[i]] > 0 ==> Within(deployed, keys[..i + 1], was)
    ensures keys[i] in deployed && (was - multiset(keys[..i]))[keys[i]] == 0 ==>
              !Within(deployed, keys, was) && !Within(deployed, keys[..i + 1], was)
  {
    assert keys[..i + 1] == keys[..i] + [keys[i]];
    assert keys == keys[..i] + ([keys[i]] + keys[i + 1..]);
    assert multiset(keys) == multiset(keys[..i]) + (multiset{keys[i]} + multiset(keys[i + 1..]));
    assert keys[i] in keys && keys[i] in keys[..i + 1];
    forall k | k in keys[..i + 1] && k in deployed && k != keys[i] ensures multiset(keys[..i + 1])[k] <= was[k] {
      assert k in keys[..i];
    }
  }

  lemma LastSame(tasks: map<Id, Key>, usage: map<Id, nat>, keys: seq<Key>, last: seq<Id>, k: Key)
    requires IsLast(tasks, usage, keys, last) && k !in tasks.Values
    ensures IsLast(tasks, usage, keys + [k], last)
  {
    forall id | id in tasks ensures tasks[id] != k { assert tasks[id] in tasks.Values; }
  }

  lemma LastStep(tasks: map<Id, Key>, usage: map<Id, nat>, index: map<Key, Id>, out: multiset<Key>, keys: seq<Key>,
          last: seq<Id>, id: Id)
    requires IsLast(tasks, usage, keys, last) && Counted(tasks, usage, index, out) && id in tasks && usage[id] > 0
    ensures var usage' := usage[id := usage[id] - 1];
            IsLast(tasks, usage', keys + [tasks[id]], if usage'[id] == 0 then last + [id] else last)
  {
    assert id !in last;
    forall i | i in tasks && tasks[i] == tasks[id] ensures i == id {
      assert IdOk(tasks, usage, index, out, i) && IdOk(tasks, usage, index, out, id);
    }
  }

  /** The entries without those among the first `n` of `last` whose teardown works. */
  function Torn(tasks: map<Id, Key>, last: seq<Id>, n: nat, teardownOk: Key -> bool): map<Id, Key>
    requires n <= |last|
  {
    if n == 0 then tasks
    else
      var m, id := Torn(tasks, last, n - 1, teardownOk), last[n - 1];
      if id in tasks && teardownOk(tasks[id]) then m - {id} else m
  }

  lemma {:induction false} TornIs(tasks: map<Id, Key>, last: seq<Id>, n: nat, teardownOk: Key -> bool, id: Id)
    requires n <= |last|
    ensures var m := Torn(tasks, last, n, teardownOk);
            && (id in m <==> id in tasks && !(id in last[..n] && teardownOk(tasks[id])))
            && (id in m ==> m[id] == tasks[id])
  {
    if n > 0 {
      TornIs(tasks, last, n - 1, teardownOk, id);
      assert last[..n] == last[..n - 1] + [last[n - 1]];
    }
  }

  /** Declared unused for the last time. */
  ghost predicate Unused(k: Key, keys: seq<Key>, out: multiset<Key>) {
    k in keys && out[k] == 0
  }

  /** The teardowns of the first `n` all work. */
  predicate AllTorn(tasks: map<Id, Key>, last: seq<Id>, n: nat, teardownOk: Key -> bool)
    requires n <= |last|
  {
    n == 0 || (AllTorn(tasks, last, n - 1, teardownOk) && last[n - 1] in tasks && teardownOk(tasks[last[n - 1]]))
  }

  lemma {:induction false} AllTornMeans(tasks: map<Id, Key>, last: seq<Id>, n: nat, teardownOk: Key -> bool)
    requires n <= |last|
    ensures AllTorn(tasks, last, n, teardownOk) <==>
              forall i {:trigger last[i]} :: 0 <= i < n ==> last[i] in tasks && teardownOk(tasks[last[i]])
  {
    if n > 0 { AllTornMeans(tasks, last, n - 1, teardownOk); }
  }

  /** The next entry to be torn down is still there, unused. */
  lemma NextToTear(tasks: map<Id, Key>, usage: map<Id, nat>, keys: seq<Key>, last: seq<Id>, i: nat,
          teardownOk: Key -> bool)
    requires IsLast(tasks, usage, keys, last) && i < |last|
    ensures last[i] in tasks && last[i] in Torn(tasks, last, i, teardownOk)
    ensures Torn(tasks, last, i, teardownOk)[last[i]] == tasks[last[i]]
    ensures last[i] in usage && usage[last[i]] == 0
  {
    TornIs(tasks, last, i, teardownOk, last[i]);
    assert last[i] in last;
    assert last[i] !in last[..i];
  }

  /** The entries without those that are declared unused for the last time and can be torn down. */
  ghost function Left(tasks: map<Id, Key>, keys: seq<Key>, out: multiset<Key>, teardownOk: Key -> bool): map<Id, Key> {
    map id | id in tasks && !(Unused(tasks[id], keys, out) && teardownOk(tasks[id])) :: tasks[id]
  }

  /** What is left when `last` are torn down is what is still used or could not be torn down. */
  lemma TornMeans(tasks: map<Id, Key>, usage: map<Id, nat>, index: map<Key, Id>, out: multiset<Key>, keys: seq<Key>,
          last: seq<Id>, teardownOk: Key -> bool)
    requires Counted(tasks, usage, index, out) && IsLast(tasks, usage, keys, last)
    ensures Torn(tasks, last, |last|, teardownOk) == Left(tasks, keys, out, teardownOk)
    ensures AllTorn(tasks, last, |last|, teardownOk) <==>
              forall k :: Unused(k, keys, out) && k in tasks.Values ==> teardownOk(k)
  {
    var m := Torn(tasks, last, |last|, teardownOk);
    assert last[..|last|] == last;
    forall id ensures (id in m <==> id in Left(tasks, keys, out, teardownOk)) && (id in m ==> m[id] == tasks[id]) {
      TornIs(tasks, last, |last|, teardownOk, id);
      assert IdOk(tasks, usage, index, out, id);
    }
    AllTornMeans(tasks, last, |last|, teardownOk);
    forall i | 0 <= i < |last|
      ensures last[i] in tasks && Unused(tasks[last[i]], keys, out) && tasks[last[i]] in tasks.Values {
      assert last[i] in last && IdOk(tasks, usage, index, out, last[i]);
    }
    forall k | Unused(k, keys, out) && k in tasks.Values
      ensures exists i :: 0 <= i < |last| && last[i] in tasks && tasks[last[i]] == k {
      assert KeyOk(tasks, index, out, k) && IdOk(tasks, usage, index, out, index[k]);
      assert index[k] in last;
    }
  }

  lemma FirstsAll(ids: seq<Id>)
    ensures forall id {:trigger id in ids} {:trigger id in Firsts(ids, |ids|)} :: id in Firsts(ids, |ids|) <==>
              id in ids
  {
    forall id ensures id in Firsts(ids, |ids|) <==> id in ids { FirstsAre(ids, |ids|, id); }
  }

  ghost function UnusedIds(tasks: map<Id, Key>, keys: seq<Key>, out: multiset<Key>): set<Id> {
    set id | id in tasks && Unused(tasks[id], keys, out)
  }

  lemma LastIsUnused(tasks: map<Id, Key>, usage: map<Id, nat>, index: map<Key, Id>, out: multiset<Key>,
          keys: seq<Key>, last: seq<Id>)
    requires Counted(tasks, usage, index, out) && IsLast(tasks, usage, keys, last)
    ensures Firsts(last, |last|) == UnusedIds(tasks, keys, out)
  {
    FirstsAll(last);
    forall id ensures id in last <==> id in tasks && Unused(tasks[id], keys, out) {
      assert IdOk(tasks, usage, index, out, id);
    }
  }

  // ---- what is really deployed ----

  /** The entries in use that nothing is deployed for. */
  ghost function UnbackedIn(usage: map<Id, nat>, deployed: set<Id>): set<Id> {
    set id | id in usage && usage[id] > 0 && id !in deployed
  }

  /** The unused entries, left by failed teardowns, of classes that are declared again. */
  ghost function Revived(t: Tables, deployed: set<Id>, keys: seq<Key>): set<Id> {
    set id | id in t.tasks && id in t.usage && t.usage[id] == 0 && id !in deployed && t.tasks[id] in keys
  }

  /**
   A successful declaration deploys what is new, and nothing for an entry that is there: it adds exactly
   the revived entries to those that are ready without a deployment.
   */
  lemma UnbackedAfter(b: Tables, t: Tables, index: map<Key, Id>, out: multiset<Key>, keys: seq<Key>, added: seq<Id>,
          deployed: set<Id>)
    requires b.usage.Keys == b.tasks.Keys && Counted(t.tasks, t.usage, index, out) && Assigned(b, t, index, keys, added)
    requires multiset(keys) <= out && deployed <= b.tasks.Keys
    ensures UnbackedIn(t.usage, deployed + Firsts(added, |added|)) == UnbackedIn(b.usage, deployed)
              + Revived(b, deployed, keys)
  {
    FirstsAll(added);
    forall id
      ensures id in UnbackedIn(t.usage, deployed + Firsts(added, |added|)) <==>
                id in UnbackedIn(b.usage, deployed) + Revived(b, deployed, keys) {
      if id in t.tasks {
        assert EntryOk(b, t, keys, added, id) && IdOk(t.tasks, t.usage, index, out, id);
        if t.tasks[id] in keys { assert t.tasks[id] in multiset(keys); }
      }
    }
  }

  ghost predicate ReadyAreDeployed(states: map<Id, TaskState>, deployed: set<Id>) {
    forall id {:trigger id in states} :: id in states && states[id] == Ready ==> id in deployed
  }

  /** No class in `keys` has an entry that a failed teardown left unused. */
  ghost predicate NoneLeftOver(t: Tables, deployed: set<Id>, keys: seq<Key>) {
    forall id {:trigger id in t.tasks} :: id in t.tasks && id in t.usage && t.usage[id] == 0 && id !in deployed ==>
        t.tasks[id] !in keys
  }

  lemma ReadyMeans(t: Table, deployed: set<Id>)
    ensures ReadyAreDeployed(t.t.states, deployed) <==> UnbackedIn(t.t.usage, deployed) == {}
  {
    forall id | id in t.t.states ensures id in t.t.usage && (t.t.states[id] == Ready <==> t.t.usage[id] > 0) {
      assert StateOk(t.t.states, t.t.usage, id);
    }
    if UnbackedIn(t.t.usage, deployed) != {} {
      var id :| id in UnbackedIn(t.t.usage, deployed);
      assert id in t.t.states;
    } else {
      forall id | id in t.t.states && t.t.states[id] == Ready ensures id in deployed {
        assert id !in UnbackedIn(t.t.usage, deployed);
      }
    }
  }

  /**
   So after a successful declaration every READY entry is deployed exactly if that was so before and no class
   left over is declared again.
   */
  lemma ReadyAreDeployedIff(b: Table, t: Table, deployed: set<Id>, deployed': set<Id>, keys: seq<Key>)
    requires UnbackedIn(t.t.usage, deployed') == UnbackedIn(b.t.usage, deployed) + Revived(b.t, deployed, keys)
    ensures ReadyAreDeployed(t.t.states, deployed') <==>
              ReadyAreDeployed(b.t.states, deployed) && NoneLeftOver(b.t, deployed, keys)
  {
    ReadyMeans(b, deployed);
    ReadyMeans(t, deployed');
    if NoneLeftOver(b.t, deployed, keys) {
      assert Revived(b.t, deployed, keys) == {};
    } else {
      var id :| id in b.t.tasks && id in b.t.usage && b.t.usage[id] == 0 && id !in deployed && b.t.tasks[id] in keys;
      assert id in Revived(b.t, deployed, keys);
    }
  }

  /** Giving back leaves no further entry ready without a deployment, for what it tears down is unused. */
  lemma NoneUnbacked(b: Table, t: Table, deployed: set<Id>, deployed': set<Id>, keys: seq<Key>)
    requires Extends(t.t.tasks, b.t.tasks) && t.out <= b.out
    requires deployed' == deployed || deployed' == deployed - UnusedIds(b.t.tasks, keys, t.out)
    ensures UnbackedIn(t.t.usage, deployed') <= UnbackedIn(b.t.usage, deployed)
  {
    forall id | id in UnbackedIn(t.t.usage, deployed') ensures id in UnbackedIn(b.t.usage, deployed) {
      assert IdOk(t.t.tasks, t.t.usage, t.index, t.out, id) && IdOk(b.t.tasks, b.t.usage, b.index, b.out, id);
    }
  }

  // ---- the task manager ----

  datatype Outcome = Done | RuntimeError | PreDeployError | AssertionError

  class TaskManager {
    var tasks: map<Id, Key>
    var states: map<Id, TaskState>
    var names: map<Id, nat>
    var uuids: map<Id, nat>
    var usage: map<Id, nat>
    ghost var index: map<Key, Id>
    ghost var out: multiset<Key>
    ghost var table: Table
    ghost var deployed: set<Id>  // entries whose deployment succeeded and whose teardown has not been requested since

    function Now(): Tables
      reads this
    {
      Tables(tasks, states, names, uuids, usage)
    }

    ghost predicate Valid()
      reads this
    {
      Steady() && deployed <= tasks.Keys
    }

    ghost predicate Steady()
      reads this
    {
      table == RawTable(Now(), index, out)
    }

    /** The ready entries that nothing is deployed for. */
    ghost function Unbacked(): set<Id>
      reads this
    {
      UnbackedIn(usage, deployed)
    }

    constructor ()
      ensures Valid() && tasks == map[] && out == multiset{} && deployed == {}
    {
      tasks, states, names, uuids, usage := map[], map[], map[], map[], map[];
      index, out, deployed := map[], multiset{}, {};
      table := RawTable(Tables(map[], map[], map[], map[], map[]), map[], multiset{});
    }

    /** The search for an equivalent task. */
    method Find(k: Key) returns (found: bool, id: Id)
      ensures found <==> k in tasks.Values
      ensures found ==> id in tasks && tasks[id] == k
    {
      var ids := tasks.Keys;
      while ids != {}
        invariant ids <= tasks.Keys
        invariant forall i :: i in tasks && i !in ids ==> tasks[i] != k
        decreases ids
      {
        id :| id in ids;
        if tasks[id] == k {
          return true, id;
        }
        ids := ids - {id};
      }
      found, id := false, 0;
    }

    /** Draws UUIDs until the id is unused. */
    method NewId(seed: nat) returns (id: Id)
      ensures id !in tasks
    {
      id := seed;
      ghost var left := set i | i in tasks && i >= id;
      while id in tasks
        invariant left == set i | i in tasks && i >= id
        decreases left
      {
        id := id + 1;
        ghost var next := set i | i in tasks && i >= id;
        assert next == left - {id - 1};
        left := next;
      }
    }

    /** The first loop of declare_used, for one task. */
    method Count(k: Key, ghost b: Tables, ghost keys: seq<Key>, added: seq<Id>) returns (id: Id, added': seq<Id>)
      requires Counted(tasks, usage, index, out) && Assigned(b, Now(), index, keys, added)
      modifies this`tasks, this`states, this`uuids, this`usage, this`index, this`out
      ensures Counted(tasks, usage, index, out) && out == old(out) + multiset{k}
      ensures Assigned(b, Now(), index, keys + [k], added') && id in tasks && tasks[id] == k
      ensures Extends(old(tasks), tasks)
    {
      var found;
      found, id := Find(k);
      if found {
        added' := added;
        CountOld(id, b, keys, added);
      } else {
        id := CountNew(k, b, keys, added);
        added' := added + [id];
      }
    }

    method CountOld(id: Id, ghost b: Tables, ghost keys: seq<Key>, ghost added: seq<Id>)
      requires Counted(tasks, usage, index, out) && Assigned(b, Now(), index, keys, added) && id in tasks
      modifies this`usage, this`out
      ensures Counted(tasks, usage, index, out) && out == old(out) + multiset{tasks[id]}
      ensures Assigned(b, Now(), index, keys + [tasks[id]], added)
    {
      OldEntry(tasks, usage, index, out, id);
      AssignOld(b, Now(), index, keys, added, id);
      usage := usage[id := usage[id] + 1];
      out := out + multiset{tasks[id]};
    }

    method CountNew(k: Key, ghost b: Tables, ghost keys: seq<Key>, ghost added: seq<Id>) returns (id: Id)
      requires Counted(tasks, usage, index, out) && Assigned(b, Now(), index, keys, added) && k !in tasks.Values
      modifies this`tasks, this`states, this`uuids, this`usage, this`index, this`out
      ensures Counted(tasks, usage, index, out) && out == old(out) + multiset{k}
      ensures Assigned(b, Now(), index, keys + [k], added + [id]) && id !in old(tasks) && tasks == old(tasks)[id := k]
    {
      id := NewId(0);
      NewEntry(tasks, usage, index, out, id, k);
      AssignNew(b, Now(), index, keys, added, id, k);
      tasks, states, uuids, usage := tasks[id := k], states[id := Deploying], uuids[id := id], usage[id := 1];
      index, out := index[k := id], out + multiset{k};
    }

    method CountAll(keys: seq<Key>) returns (ids: seq<Id>, added: seq<Id>)
      requires Steady()
      modifies this`tasks, this`states, this`uuids, this`usage, this`index, this`out
      ensures Counted(tasks, usage, index, out) && out == old(out) + multiset(keys)
      ensures Assigned(old(Now()), Now(), index, keys, added)
      ensures IdsFor(tasks, keys, ids)
    {
      ids, added := [], [];
      ghost var b := Now();
      for i := 0 to |keys|
        invariant Counted(tasks, usage, index, out) && out == old(out) + multiset(keys[..i])
        invariant Assigned(b, Now(), index, keys[..i], added)
        invariant IdsFor(tasks, keys[..i], ids)
      {
        assert keys[..i + 1] == keys[..i] + [keys[i]];
        var id;
        ghost var before := tasks;
        id, added := Count(keys[i], b, keys[..i], added);
        IdsGrow(before, tasks, keys[..i], ids, keys[i], id);
        ids := ids + [id];
      }
      assert keys[..|keys|] == keys;
    }

    /** Creates the instances of the new entries; false when one of them fails. */
    method CreateAll(added: seq<Id>, createOk: Key -> bool) returns (ok: bool)
      requires forall id :: id in added ==> id in tasks
      modifies this`names
      ensures ok <==> forall id :: id in added ==> createOk(tasks[id])
      ensures ok ==> forall id :: id in names <==> id in old(names) || id in added
    {
      for i := 0 to |added|
        invariant forall j :: 0 <= j < i ==> createOk(tasks[added[j]])
        invariant forall id :: id in names <==> id in old(names) || id in added[..i]
      {
        var id := added[i];
        if !createOk(tasks[id]) {
          return false;
        }
        assert added[..i + 1] == added[..i] + [id];
        names := names[id := id];
      }
      assert added[..|added|] == added;
      ok := true;
    }

    /** The answers to the deployment requests, which are all sent. */
    method DeployAll(added: seq<Id>, deployOk: Key -> bool) returns (ok: bool)
      requires forall id :: id in added ==> id in tasks
      modifies this`deployed
      ensures ok <==> forall id :: id in added ==> deployOk(tasks[id])
      ensures ok ==> deployed == old(deployed) + Firsts(added, |added|)
    {
      ok := true;
      for i := 0 to |added|
        invariant ok <==> forall j :: 0 <= j < i ==> deployOk(tasks[added[j]])
        invariant ok ==> deployed == old(deployed) + Firsts(added, i)
      {
        if deployOk(tasks[added[i]]) {
          deployed := deployed + {added[i]};
        } else {
          ok := false;
        }
      }
    }

    /** Back to the snapshot, after teardown requests for everything that was new. */
    method Restore(b: Tables, ghost i: map<Key, Id>, ghost o: multiset<Key>, ghost d: set<Id>)
      requires table == RawTable(b, i, o)
      modifies this
      ensures Steady() && Now() == b && index == i && out == o && deployed == d
    {
      ghost var before := table;
      tasks, states, names, uuids, usage := b.tasks, b.states, b.names, b.uuids, b.usage;
      index, out, deployed := i, o, d;
      table := before;
    }

    /** The last loop of declare_used. */
    method SetReady(ids: seq<Id>, ghost keys: seq<Key>)
      requires states.Keys == tasks.Keys && IdsFor(tasks, keys, ids)
      modifies this`states
      ensures states.Keys == old(states).Keys
      ensures forall id :: id in states ==> states[id] == if id in ids then Ready else old(states)[id]
    {
      for i := 0 to |ids|
        invariant states.Keys == old(states).Keys
        invariant forall id :: id in states ==> states[id] == if id in ids[..i] then Ready else old(states)[id]
      {
        assert ids[..i + 1] == ids[..i] + [ids[i]];
        states := states[ids[i] := Ready];
      }
      assert ids[..|ids|] == ids;
    }

    /**
     declare_used up to the point where errors are known; `createOk` and `deployOk` say which classes can be
     deployed.
     */
    method TryToDeploy(keys: seq<Key>, createOk: Key -> bool, deployOk: Key -> bool)
      returns (r: Outcome, ids: seq<Id>, added: seq<Id>)
      requires Valid()
      modifies this`tasks, this`states, this`names, this`uuids, this`usage, this`index, this`out, this`deployed
      ensures r == PreDeployError <==> !AllNewOk(old(tasks), keys, createOk)
      ensures r == Done <==> AllNewOk(old(tasks), keys, createOk) && AllNewOk(old(tasks), keys, deployOk)
      ensures r == Done || r == PreDeployError || r == RuntimeError
      ensures r == Done ==> Counted(tasks, usage, index, out) && out == old(out) + multiset(keys)
      ensures r == Done ==> Assigned(old(Now()), Now().(names := old(names)), index, keys, added)
      ensures r == Done ==> IdsFor(tasks, keys, ids) && OnlyNew(old(tasks), tasks, keys)
      ensures r == Done ==>
                deployed == old(deployed) + Firsts(added, |added|) && forall id :: id in names <==>
                id in old(names) || id in added
    {
      ghost var b, index0, out0 := Now(), index, out;
      ids, added := CountAll(keys);
      NewClasses(b, Now(), index0, index, out0, out, keys, added);
      OnlyDeclared(b, Now(), index, keys, added);
      var ok := CreateAll(added, createOk);
      if !ok {
        return PreDeployError, ids, added;
      }
      ok := DeployAll(added, deployOk);
      r := if ok then Done else RuntimeError;
    }

    /** declare_used */
    method DeclareUsed(keys: seq<Key>, createOk: Key -> bool, deployOk: Key -> bool) returns (r: Outcome)
      requires Valid()
      modifies this
      ensures Valid()
      ensures r == PreDeployError <==> !AllNewOk(old(tasks), keys, createOk)
      ensures r == Done <==> AllNewOk(old(tasks), keys, createOk) && AllNewOk(old(tasks), keys, deployOk)
      ensures r == Done || r == PreDeployError || r == RuntimeError
      ensures r == Done ==>
                out == old(out) + multiset(keys) && Extends(old(tasks), tasks) && OnlyNew(old(tasks), tasks, keys)
      ensures r != Done ==> Now() == old(Now()) && index == old(index) && out == old(out) && deployed == old(deployed)
      ensures r == Done ==> Unbacked() == old(Unbacked()) + Revived(old(Now()), old(deployed), keys)
      ensures r == Done ==>
                (ReadyAreDeployed(states, deployed) <==>
                ReadyAreDeployed(old(states), old(deployed)) && NoneLeftOver(old(Now()), old(deployed), keys))
    {
      var snapshot := Now();
      ghost var index0, out0, deployed0, table0 := index, out, deployed, table;
      var ids, added;
      r, ids, added := TryToDeploy(keys, createOk, deployOk);
      if r == Done {
        UnbackedAfter(snapshot, Now().(names := snapshot.names), index, out, keys, added, deployed0);
        FirstsAll(added);
        FinishUsed(ids, snapshot, Now().(names := snapshot.names), index0, out0, keys, added);
        ReadyAreDeployedIff(table0, table, deployed0, deployed, keys);
      } else {
        Restore(snapshot, index0, out0, deployed0);
      }
    }

    /** The last loop leaves a consistent table. */
    method FinishUsed(ids: seq<Id>, ghost b: Tables, ghost t: Tables, ghost index0: map<Key, Id>,
            ghost out0: multiset<Key>, ghost keys: seq<Key>, ghost added: seq<Id>)
      requires Consistent(b, index0, out0) && Counted(tasks, usage, index, out) && out == out0 + multiset(keys)
      requires Assigned(b, t, index, keys, added) && Now() == t.(names := names) && forall id :: id in names <==>
                id in b.names || id in added
      requires IdsFor(tasks, keys, ids)
      modifies this`states, this`table
      ensures Steady() && Extends(b.tasks, tasks)
    {
      SetReady(ids, keys);
      InIds(tasks, usage, index, out, keys, ids);
      Settled(b, t, Now(), index0, index, out0, out, keys, added);
      table := RawTable(Now(), index, out);
    }

    /** The first loop of declare_not_used; false when a counter is zero already. */
    method ReleaseAll(keys: seq<Key>) returns (ok: bool, last: seq<Id>)
      requires Steady()
      modifies this`usage, this`states, this`out, this`table
      ensures Steady()
      ensures ok <==> Within(tasks.Values, keys, old(out))
      ensures ok ==> out == old(out) - multiset(keys) && IsLast(tasks, usage, keys, last)
      ensures !ok ==> exists i :: StoppedAt(tasks.Values, keys, old(out), out, i)
      ensures out <= old(out)
    {
      last := [];
      ghost var out0 := out;
      for i := 0 to |keys|
        invariant Steady() && out == out0 - multiset(keys[..i])
        invariant Within(tasks.Values, keys[..i], out0) && IsLast(tasks, usage, keys[..i], last)
      {
        ok, last := ReleaseNext(keys, i, last, out0);
        if !ok {
          assert StoppedAt(tasks.Values, keys, out0, out, i);
          return;
        }
      }
      assert keys[..|keys|] == keys;
      ok := true;
    }

    method ReleaseNext(keys: seq<Key>, i: nat, last: seq<Id>, ghost out0: multiset<Key>)
      returns (ok: bool, last': seq<Id>)
      requires i < |keys| && Steady() && out == out0 - multiset(keys[..i])
      requires Within(tasks.Values, keys[..i], out0) && IsLast(tasks, usage, keys[..i], last)
      modifies this`usage, this`states, this`out, this`table
      ensures Steady() && (!ok ==> !Within(tasks.Values, keys, out0) && out == old(out))
      ensures !ok ==> StoppedAt(tasks.Values, keys, out0, out, i)
      ensures ok ==>
                out == out0 - multiset(keys[..i + 1]) && Within(tasks.Values, keys[..i + 1], out0)
                && IsLast(tasks, usage, keys[..i + 1], last')
    {
      WithinStep(tasks.Values, keys, i, out0);
      ok, last' := ReleaseOne(keys[i], keys[..i], last);
    }

    method ReleaseOne(k: Key, ghost keys: seq<Key>, last: seq<Id>) returns (ok: bool, last': seq<Id>)
      requires Steady() && IsLast(tasks, usage, keys, last)
      modifies this`usage, this`states, this`out, this`table
      ensures Steady() && (ok <==> k !in tasks.Values || old(out)[k] > 0)
      ensures ok ==> out == old(out) - multiset{k} && IsLast(tasks, usage, keys + [k], last')
      ensures !ok ==> out == old(out)
    {
      var found, id := Find(k);
      if !found {
        assert KeyOk(tasks, index, out, k);
        LastSame(tasks, usage, keys, last, k);
        return true, last;
      }
      assert IdOk(tasks, usage, index, out, id);
      if usage[id] == 0 {
        return false, last;
      }
      last' := Decrement(id, keys, last);
      ok := true;
    }

    method Decrement(id: Id, ghost keys: seq<Key>, last: seq<Id>) returns (last': seq<Id>)
      requires Steady() && IsLast(tasks, usage, keys, last) && id in tasks && usage[id] > 0
      modifies this`usage, this`states, this`out, this`table
      ensures Steady() && out == old(out) - multiset{tasks[id]}
      ensures IsLast(tasks, usage, keys + [tasks[id]], last')
    {
      ReleaseEntry(tasks, usage, index, out, id);
      LastStep(tasks, usage, index, out, keys, last, id);
      ghost var states0, usage0 := states, usage;
      out := out - multiset{tasks[id]};
      usage := usage[id := usage[id] - 1];
      last' := last;
      if usage[id] == 0 {
        last' := last + [id];
        states := states[id := TearingDown];
      }
      forall i ensures StateOk(states, usage, i) { assert StateOk(states0, usage0, i); }
      table := RawTable(Now(), index, out);
    }

    /** Teardown requests are sent for all entries; those that fail stay in the table. */
    method TeardownAll(last: seq<Id>, teardownOk: Key -> bool, ghost keys: seq<Key>) returns (ok: bool)
      requires Steady() && IsLast(tasks, usage, keys, last)
      modifies this`tasks, this`states, this`names, this`uuids, this`usage, this`index, this`deployed, this`table
      ensures Steady()
      ensures ok <==> AllTorn(old(tasks), last, |last|, teardownOk)
      ensures tasks == Torn(old(tasks), last, |last|, teardownOk) && deployed == old(deployed) - Firsts(last, |last|)
    {
      ok := true;
      ghost var tasks0, usage0 := tasks, usage;
      for i := 0 to |last|
        invariant Steady() && tasks == Torn(tasks0, last, i, teardownOk) && deployed == old(deployed) - Firsts(last, i)
        invariant ok <==> AllTorn(tasks0, last, i, teardownOk)
        invariant Extends(usage, usage0)
      {
        var torn := TeardownNext(last, i, teardownOk, keys, tasks0, usage0);
        ok := ok && torn;
      }
    }

    method TeardownNext(last: seq<Id>, i: nat, teardownOk: Key -> bool, ghost keys: seq<Key>,
            ghost tasks0: map<Id, Key>, ghost usage0: map<Id, nat>) returns (ok: bool)
      requires Steady() && i < |last| && IsLast(tasks0, usage0, keys, last)
      requires tasks == Torn(tasks0, last, i, teardownOk) && Extends(usage, usage0)
      modifies this`tasks, this`states, this`names, this`uuids, this`usage, this`index, this`deployed, this`table
      ensures Steady() && deployed == old(deployed) - {last[i]}
      ensures tasks == Torn(tasks0, last, i + 1, teardownOk) && Extends(usage, usage0)
      ensures last[i] in tasks0 && ok == teardownOk(tasks0[last[i]])
    {
      NextToTear(tasks0, usage0, keys, last, i, teardownOk);
      assert tasks.Keys == usage.Keys;
      assert last[i] in usage;
      ok := TeardownOne(last[i], teardownOk);
    }

    method TeardownOne(id: Id, teardownOk: Key -> bool) returns (ok: bool)
      requires Steady() && id in tasks && usage[id] == 0
      modifies this`tasks, this`states, this`names, this`uuids, this`usage, this`index, this`deployed, this`table
      ensures Steady() && ok == teardownOk(old(tasks)[id]) && deployed == old(deployed) - {id}
      ensures tasks == (if ok then old(tasks) - {id} else old(tasks))
                && usage == (if ok then old(usage) - {id} else old(usage))
    {
      ok := teardownOk(tasks[id]);
      deployed := deployed - {id};
      if ok {
        DropKeeps(Now(), index, out, id);
        index := index - {tasks[id]};
        tasks, states, names, uuids, usage := tasks - {id}, states - {id}, names - {id}, uuids - {id}, usage - {id};
        table := RawTable(Dropped(table.t, id), index, out);
      }
    }

    /** ... so that what is left is what is still used or could not be torn down. */
    method TeardownUnused(last: seq<Id>, teardownOk: Key -> bool, ghost keys: seq<Key>) returns (ok: bool)
      requires Steady() && IsLast(tasks, usage, keys, last)
      modifies this`tasks, this`states, this`names, this`uuids, this`usage, this`index, this`deployed, this`table
      ensures Steady()
      ensures ok <==> forall k :: Unused(k, keys, out) && k in old(tasks).Values ==> teardownOk(k)
      ensures tasks == Left(old(tasks), keys, out, teardownOk)
      ensures deployed == old(deployed) - UnusedIds(old(tasks), keys, out)
    {
      TornMeans(tasks, usage, index, out, keys, last, teardownOk);
      LastIsUnused(tasks, usage, index, out, keys, last);
      ok := TeardownAll(last, teardownOk, keys);
    }

    /** declare_not_used, where `teardownOk` says which classes can be torn down. */
    method DeclareNotUsed(keys: seq<Key>, teardownOk: Key -> bool) returns (r: Outcome)
      requires Valid()
      modifies this
      ensures Valid()
      ensures r == AssertionError <==> !Within(old(tasks).Values, keys, old(out))
      ensures r != AssertionError ==> out == old(out) - multiset(keys)
      ensures r == AssertionError ==> exists i :: StoppedAt(old(tasks).Values, keys, old(out), out, i)
      ensures tasks == if r == AssertionError then old(tasks) else Left(old(tasks), keys, out, teardownOk)
      ensures deployed == if r == AssertionError then old(deployed)
                else old(deployed) - UnusedIds(old(tasks), keys, out)
      ensures r != AssertionError ==>
                (r == Done <==> forall k :: Unused(k, keys, out) && k in old(tasks).Values ==> teardownOk(k))
      ensures r == Done || r == AssertionError || r == RuntimeError
      ensures Unbacked() <= old(Unbacked())
    {
      ghost var b, deployed0 := table, deployed;
      var ok, last := ReleaseAll(keys);
      if !ok {
        NoneUnbacked(b, table, deployed0, deployed, keys);
        return AssertionError;
      }
      ok := TeardownUnused(last, teardownOk, keys);
      NoneUnbacked(b, table, deployed0, deployed, keys);
      r := if ok then Done else RuntimeError;
    }
  }

  // A run to such an entry: used, no longer used but not torn down, and used again although nothing can be deployed.

  method UseOnce() returns (m: TaskManager, id: Id)
    ensures fresh(m) && m.Valid() && id in m.tasks && m.tasks[id] == 0 && m.out == multiset{0} && id in m.deployed
  {
    m := new TaskManager();
    var r := m.DeclareUsed([0], _ => true, _ => true);
    var found;
    assert KeyOk(m.tasks, m.index, m.out, 0);
    found, id := m.Find(0);
    assert IdOk(m.tasks, m.usage, m.index, m.out, id);
    assert id !in m.Unbacked();
  }

  method FailToTearDown(m: TaskManager, id: Id)
    requires m.Valid() && id in m.tasks && m.tasks[id] == 0 && m.out == multiset{0}
    modifies m
    ensures m.Valid() && id in m.tasks && m.tasks[id] == 0 && m.out == multiset{} && id !in m.deployed
  {
    assert multiset([0]) == multiset{0};
    ghost var tasks := m.tasks;
    var r := m.DeclareNotUsed([0], _ => false);
    assert Unused(0, [0], m.out);
    assert id in UnusedIds(tasks, [0], m.out) && id in Left(tasks, [0], m.out, _ => false);
  }

  method FailedTeardownExample() returns (m: TaskManager, id: Id)
    ensures fresh(m) && m.Valid() && id in m.tasks && m.states[id] == Ready && id !in m.deployed
  {
    m, id := UseOnce();
    FailToTearDown(m, id);
    ghost var t, deployed := m.Now(), m.deployed;
    assert IdOk(m.tasks, m.usage, m.index, m.out, id);
    assert id in Revived(t, deployed, [0]);
    var r := m.DeclareUsed([0], _ => false, _ => false);
    assert m.Unbacked() == UnbackedIn(t.usage, deployed) + Revived(t, deployed, [0]);
    assert id in m.Unbacked() && StateOk(m.states, m.usage, id);
  }

  lemma InIds(tasks: map<Id, Key>, usage: map<Id, nat>, index: map<Key, Id>, out: multiset<Key>, keys: seq<Key>,
          ids: seq<Id>)
    requires Counted(tasks, usage, index, out) && IdsFor(tasks, keys, ids)
    ensures forall id {:trigger id in ids} :: id in tasks ==> (id in ids <==> tasks[id] in keys)
  {
    forall id | id in tasks ensures id in ids <==> tasks[id] in keys {
      assert IdOk(tasks, usage, index, out, id);
      forall i | 0 <= i < |keys| && keys[i] == tasks[id]
        ensures ids[i] == id { assert IdOk(tasks, usage, index, out, ids[i]); }
    }
  }
}
