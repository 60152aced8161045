/**
 The two process-wide registries and the event handler that drives them. `got` and `gotDescriptors`
 are the history of what has been handled.
*/
module TaskRegistryLoader {
  import opened Options
  import opened TaskRegistry

  datatype Outcome =
    | Done
    | NotFound(missing: Module)  // ModuleNotFoundError
    | Failed                     // any other exception

  datatype Event = TaskDefinition(d: Def) | ExecutionDescriptor(x: Descriptor)

  /**
   A point in the handling of events: what was found to be importable (`reg`) of the received definitions
   (`got`), and the tasks whose descriptors are bound (`bound`) of the received ones (`gotDescriptors`).
   */
  datatype Stage = Stage(got: set<nat>, gotDescriptors: set<nat>, reg: set<nat>, bound: set<nat>)
  {
    ghost predicate Fits(w: World) {
      && got <= w.defs.Keys && gotDescriptors <= w.descriptors.Keys && reg <= got && bound <= UnitNames(w.defs, reg)
      && forall n {:trigger Found(w, got, n)} :: n in reg ==> Found(w, got, n)
    }
  }

  ghost predicate Found(w: World, got: set<nat>, n: nat) { n in Resolved(w, got) }

  lemma FoundIsResolved(w: World, s: Stage)
    requires s.Fits(w)
    ensures s.reg <= Resolved(w, s.got)
  {
    forall n | n in s.reg ensures n in Resolved(w, s.got) { assert Found(w, s.got, n); }
  }

  /** What was found importable is still so when more has been received. */
  lemma StillFound(w: World, s: Stage, d: nat, found: bool)
    requires s.Fits(w) && d in w.defs && (found ==> d in Resolved(w, s.got + {d}))
    ensures s.(got := s.got + {d}, reg := if found then s.reg + {d} else s.reg).Fits(w)
  {
    var t := s.(got := s.got + {d}, reg := if found then s.reg + {d} else s.reg);
    FoundIsResolved(w, s);
    ResolvedAdd(w, s.got, d);
    forall n ensures n in t.reg ==> Found(w, t.got, n) {}
    IndexAdd(w.defs, s.reg, d);
  }

  /** The definitions that were found to be importable, and the ones that are queued. */
  datatype Progress = Progress(reg: set<nat>, waiting: set<nat>)

  /** Everything importable was found to be, and the rest is queued. */
  ghost function UpToDate(w: World, got: set<nat>): Progress {
    Progress(Resolved(w, got), got - Resolved(w, got))
  }

  /** What the arrival of `d`, after which `got` has been received, leads to. */
  ghost function Arrive(w: World, got: set<nat>, p: Progress, d: Def): Progress {
    if d.name !in Resolved(w, got) then p.(waiting := p.waiting + {d.name})
    else if Raises(d) then p.(reg := p.reg + {d.name})
    else UpToDate(w, got)
  }

  /**
   An arrival keeps everything up to date, unless it raises an exception while it makes queued definitions
   importable: then these stay queued.
   */
  lemma StaysUpToDateIff(w: World, got: set<nat>, d: Def)
    requires got <= w.defs.Keys && Known(w, d)
    ensures Arrive(w, got + {d.name}, UpToDate(w, got), d) == UpToDate(w, got + {d.name}) <==>
            !Raises(d) || Resolved(w, got + {d.name}) <= Resolved(w, got) + {d.name}
  {
    ResolvedAdd(w, got, d.name);
    var now, next := Resolved(w, got), Resolved(w, got + {d.name});
    if d.name in next && Raises(d) && next <= now + {d.name} {
      assert next == now + {d.name};
      assert d.name in got ==> got + {d.name} == got;
    }
  }

  /** Such a case: the class of the imported module is missing. */
  lemma MissedRetryExample() returns (w: World, d: Def)
    ensures Known(w, d) && 0 in w.defs && d.name != 0
    ensures 0 in Resolved(w, {0, d.name}) && 0 !in Arrive(w, {0, d.name}, UpToDate(w, {0}), d).reg
  {
    var a, b := Module(true, 0), Module(true, 1);
    var sourceA, sourceB := Source([b], map[0 := UnitClass(true)]), Source([], map[]);
    var rank := (m: Module) => if m == a then 1 else 0;
    var raw := RawCatalog(map[a := sourceA, b := sourceB], {}, rank);
    assert raw.ImportsOk(a) && raw.ImportsOk(b);
    var c: Catalog := raw;
    d := Def(1, b, sourceB, true);
    var rawW := RawWorld(c, map[0 := Def(0, a, sourceA, true), 1 := d], map[]);
    assert rawW.GoodDef(0) && rawW.GoodDef(1);
    w := rawW;
    assert w.GoodDef(1);
    assert Modules(w, {0}) == {a} by { ModulesAdd(w, {}, 0); assert {} + {0} == {0}; }
    assert Modules(w, {0, 1}) == {a, b} by { ModulesAdd(w, {0}, 1); assert {0} + {1} == {0, 1}; }
    assert !Importable(c, {a}, b);
    assert !Importable(c, {a}, a) by { assert !Importable(c, {a}, c.sources[a].imports[0]); }
    assert Importable(c, {a, b}, b);
    assert Importable(c, {a, b}, a);
  }

  class Registries {
    ghost const w: World
    const py: Interpreter
    // TASK_CLASS_REGISTRY
    var unitTasks: map<nat, Def>
    var compositeTasks: map<nat, Def>
    var pending: seq<Def>
    // DESCRIPTOR_REGISTRY
    var bindings: Bindings
    ghost var stage: Stage

    /** What holds at every point, also in the middle of an event. */
    ghost predicate Linked()
      reads this, py
    {
      && py.c == w.c && py.Valid() && stage.Fits(w)
      && py.disk.Keys * TaskModules(w) == Modules(w, stage.got)
      && unitTasks == UnitIndex(w.defs, stage.reg) && compositeTasks == CompositeIndex(w.defs, stage.reg)
      && bindings == BindingsOf(w.descriptors, stage.gotDescriptors, stage.bound)
    }

    /** What was not found to be importable is queued. */
    ghost predicate PendingOk()
      reads this
    {
      AllKnown(w, pending) && stage.got - stage.reg <= Names(pending) <= stage.got
    }

    ghost function Now(): Progress
      reads this
    {
      Progress(stage.reg, Names(pending))
    }

    /** What holds between events. */
    ghost predicate Valid()
      reads this, py
    {
      Linked() && stage.bound == UnitNames(w.defs, stage.reg) && PendingOk()
    }

    constructor (ghost w: World, builtin: set<Module>)
      requires builtin == w.c.builtin
      ensures Valid() && fresh(py) && this.w == w && stage == Stage({}, {}, {}, {}) && Now() == UpToDate(w, {})
    {
      this.w := w;
      py := new Interpreter(w.c, builtin);
      unitTasks, compositeTasks, pending := map[], map[], [];
      bindings := Bindings(map[], map[], map[]);
      stage := Stage({}, {}, {}, {});
    }

    /** _install_and_register_task */
    method Install(d: Def) returns (o: Outcome)
      requires py.Valid() && d.m in py.c.sources && py.c.sources[d.m] == d.source
      modifies py, this`unitTasks, this`compositeTasks
      ensures py.Valid() && py.disk == old(py.disk)[d.m := d.source]
      ensures o.NotFound? <==> !Importable(py.c, py.disk.Keys, d.m)
      ensures o.NotFound? ==> o.missing.tasklib
      ensures !o.NotFound? ==>
                (o == Failed <==>
                 || d.name !in d.source.classes || d.source.classes[d.name] in {DescriptorClass, OtherClass}
                 || (d.isUnit && d.source.classes[d.name] == TaskClass))
      ensures unitTasks == if o == Done && d.isUnit && d.source.classes[d.name] == UnitClass(true)
                           then old(unitTasks)[d.name := d] else old(unitTasks)
      ensures compositeTasks == if o == Done && !d.isUnit then old(compositeTasks)[d.name := d] else old(compositeTasks)
    {
      var missing, conflict := py.WriteAndImport(d.m, d.source);
      if missing.Some? {
        return NotFound(missing.value);
      }
      if conflict || d.name !in d.source.classes {
        return Failed;
      }
      var kind := d.source.classes[d.name];
      if d.isUnit {
        if !kind.UnitClass? {
          return Failed;
        }
      } else if !kind.TaskClass? && !kind.UnitClass? {
        return Failed;
      }
      o := Done;
      if !d.isUnit {
        compositeTasks := compositeTasks[d.name := d];
        return;
      }
      if !kind.typed {
        // only a warning: the class stays unregistered
        return;
      }
      unitTasks := unitTasks[d.name := d];
    }

    /** The same in the terms of the registries' specification. */
    method Register(d: Def) returns (o: Outcome)
      requires py.Valid() && d.m in py.c.sources && py.c.sources[d.m] == d.source
      modifies py, this`unitTasks, this`compositeTasks
      ensures py.Valid() && py.disk == old(py.disk)[d.m := d.source]
      ensures o.NotFound? <==> !Importable(py.c, py.disk.Keys, d.m)
      ensures o.NotFound? ==> o.missing.tasklib
      ensures !o.NotFound? ==> (o == Failed <==> Raises(d))
      ensures unitTasks == if o == Done && d.isUnit && KindFits(d) then old(unitTasks)[d.name := d] else old(unitTasks)
      ensures compositeTasks == if o == Done && !d.isUnit
                && KindFits(d) then old(compositeTasks)[d.name := d] else old(compositeTasks)
    {
      o := Install(d);
    }

    /** _install_and_register and _register of the descriptor registry, always as the default descriptor. */
    method InstallDescriptor(x: Descriptor) returns (o: Outcome)
      requires py.Valid() && x.m in py.c.sources && py.c.sources[x.m] == x.source
      modifies py, this`bindings
      ensures py.Valid() && py.disk == old(py.disk)[x.m := x.source]
      ensures o.NotFound? <==> !Importable(py.c, py.disk.Keys, x.m)
      ensures o == Done <==>
                !o.NotFound? && x.name in x.source.classes && x.source.classes[x.name].DescriptorClass?
                && x.task in unitTasks
                             && !HasDescriptor(old(bindings), x) && x.task !in old(bindings).defaults
      ensures o != Done ==> bindings.defaults == old(bindings).defaults && bindings.pending == old(bindings).pending
      ensures o == Done && Unbound(old(bindings), x.task) ==> bindings == Bind(old(bindings), x)
    {
      var missing, conflict := py.WriteAndImport(x.m, x.source);
      if missing.Some? {
        return NotFound(missing.value);
      }
      if conflict || x.name !in x.source.classes || !x.source.classes[x.name].DescriptorClass? || x.task !in unitTasks {
        return Failed;
      }
      var named := if x.task in bindings.registry then bindings.registry[x.task] else map[];
      if x.name in named {
        return Failed;
      }
      bindings := bindings.(registry := bindings.registry[x.task := named[x.name := x]]);
      if x.task in bindings.defaults {
        return Failed;
      }
      bindings := bindings.(defaults := bindings.defaults[x.task := x]);
      return Done;
    }

    /** bind_pending_descriptor_for_task_class for the unit task `d`. */
    method BindPendingDescriptor(d: Def)
      requires Linked() && d.name in UnitNames(w.defs, stage.reg)
      modifies py, this`bindings, this`stage
      ensures Linked() && stage == old(stage).(bound := old(stage).bound + {d.name})
    {
      BindQueued(d);
      stage := stage.(bound := stage.bound + {d.name});
    }

    method BindQueued(d: Def)
      requires Linked() && d.name in UnitNames(w.defs, stage.reg)
      modifies py, this`bindings
      ensures py.Valid() && py.disk.Keys * TaskModules(w) == old(py.disk).Keys * TaskModules(w)
      ensures bindings == BindingsOf(w.descriptors, stage.gotDescriptors, stage.bound + {d.name})
    {
      BindEffect(w, stage.gotDescriptors, stage.bound, d.name);
      if d.name in bindings.pending {
        assert Found(w, stage.got, d.name);
        OnDisk(w, stage.got, py.disk.Keys, d.name);
        InstallPending(d);
      }
    }

    /** The queued descriptors of a task are taken off the queue and installed. */
    method InstallPending(d: Def)
      requires d.name in w.descriptors && w.descriptors[d.name].task == d.name
      requires d.name in bindings.pending && bindings.pending[d.name] == [w.descriptors[d.name]]
      requires py.Valid() && py.c == w.c && d.name in w.defs && Importable(w.c, py.disk.Keys, w.defs[d.name].m)
      requires d.name in unitTasks && Unbound(bindings.(pending := bindings.pending - {d.name}), d.name)
      modifies py, this`bindings
      ensures py.Valid() && py.disk.Keys * TaskModules(w) == old(py.disk).Keys * TaskModules(w)
      ensures bindings == Bind(old(bindings), w.descriptors[d.name])
    {
      var items := bindings.pending[d.name];
      bindings := bindings.(pending := bindings.pending - {d.name});
      InstallAll(items, d.name);
      assert bindings == Bind(old(bindings), w.descriptors[d.name]) by {
        assert old(bindings).pending - {d.name} - {d.name} == old(bindings).pending - {d.name};
      }
    }

    /** The loop over the queued descriptors, which are one for the task `n`. */
    method InstallAll(items: seq<Descriptor>, ghost n: nat)
      requires n in w.descriptors && items == [w.descriptors[n]] && w.descriptors[n].task == n
      requires py.Valid() && py.c == w.c && n in w.defs && Importable(w.c, py.disk.Keys, w.defs[n].m)
      requires n in unitTasks && Unbound(bindings, n)
      modifies py, this`bindings
      ensures py.Valid() && py.disk.Keys * TaskModules(w) == old(py.disk).Keys * TaskModules(w)
      ensures bindings == Bind(old(bindings), w.descriptors[n])
    {
      for i := 0 to |items|
        invariant py.Valid() && py.disk.Keys * TaskModules(w) == old(py.disk).Keys * TaskModules(w)
        invariant i == 0 ==> py.disk == old(py.disk)
        invariant bindings == if i == 0 then old(bindings) else Bind(old(bindings), w.descriptors[n])
      {
        InstallQueued(items[i]);
      }
    }

    /** One iteration of the loop over the queued descriptors. */
    method InstallQueued(x: Descriptor)
      requires py.Valid() && py.c == w.c && x.task in w.descriptors && w.descriptors[x.task] == x
      requires x.task in w.defs && Importable(w.c, py.disk.Keys, w.defs[x.task].m)
      requires x.task in unitTasks && Unbound(bindings, x.task)
      modifies py, this`bindings
      ensures py.Valid() && py.disk.Keys * TaskModules(w) == old(py.disk).Keys * TaskModules(w)
      ensures bindings == Bind(old(bindings), x)
    {
      DescriptorImportable(w, py.disk.Keys, x.task);
      DescriptorsApart(w, py.disk.Keys, x.task);
      assert w.GoodDescriptor(x.task);
      assert py.disk[x.m := x.source].Keys == py.disk.Keys + {x.m};
      var o := InstallDescriptor(x);
    }

    /** One iteration of the retry loop; `kept` says that the item stays queued. */
    method RetryPending(d: Def) returns (kept: bool)
      requires Linked() && Known(w, d) && d.name in stage.got
      modifies py, this`unitTasks, this`compositeTasks, this`bindings, this`stage
      ensures Linked() && Continues(w, old(stage), stage)
      ensures kept <==> d.name !in Resolved(w, stage.got)
      ensures stage.reg == if kept then old(stage).reg else old(stage).reg + {d.name}
    {
      Rewritten(w, stage, py.disk.Keys, d.name);
      IndexAdd(w.defs, stage.reg, d.name);
      var o := Register(d);
      assert py.disk.Keys == old(py.disk).Keys + {d.m} == old(py.disk).Keys;
      assert stage.got + {d.name} == stage.got;
      StillFound(w, stage, d.name, !o.NotFound?);
      match o {
        case NotFound(missing) =>
          return missing.tasklib;
        case Failed =>
          stage := stage.(reg := stage.reg + {d.name});
          return false;
        case Done =>
          stage := stage.(reg := stage.reg + {d.name});
          if d.isUnit {
            if d.name !in unitTasks {
              // the lookup raises a KeyError, which is only logged
              return false;
            }
            BindPendingDescriptor(unitTasks[d.name]);
          }
          return false;
      }
    }

    /** The loop of _bind_pending_tasks: one pass over the queue. */
    method RetryAll() returns (remaining: seq<Def>)
      requires Linked() && AllKnown(w, pending) && Names(pending) <= stage.got
      modifies py, this`unitTasks, this`compositeTasks, this`bindings, this`stage
      ensures Linked() && Continues(w, old(stage), stage)
      ensures stage.reg == old(stage).reg + Names(pending) * Resolved(w, stage.got)
      ensures AllKnown(w, remaining) && Names(remaining) == Names(pending) - Resolved(w, stage.got)
    {
      remaining := [];
      for i := 0 to |pending|
        invariant Linked() && Continues(w, old(stage), stage)
        invariant stage.reg == old(stage).reg + Names(pending[..i]) * Resolved(w, stage.got)
        invariant AllKnown(w, remaining) && Names(remaining) == Names(pending[..i]) - Resolved(w, stage.got)
      {
        NamesAppend(pending[..i], pending[i]);
        assert pending[..i + 1] == pending[..i] + [pending[i]];
        NamesAppend(remaining, pending[i]);
        InNames(pending, i);
        RetryStep(old(stage).reg, Names(pending[..i]), Resolved(w, stage.got), pending[i].name);
        var kept := RetryPending(pending[i]);
        if kept {
          remaining := remaining + [pending[i]];
        }
      }
      assert pending[..|pending|] == pending;
    }

    /** _bind_pending_tasks: one pass is enough. */
    method BindPendingTasks()
      requires Linked() && PendingOk()
      modifies py, this`unitTasks, this`compositeTasks, this`bindings, this`pending, this`stage
      ensures Linked() && Continues(w, old(stage), stage)
      ensures Now() == UpToDate(w, stage.got) && PendingOk()
    {
      FoundIsResolved(w, stage);
      var remaining := RetryAll();
      pending := remaining;
    }

    /** The first attempt at a new definition. */
    method Introduce(d: Def) returns (o: Outcome)
      requires Valid() && Known(w, d)
      modifies py, this`unitTasks, this`compositeTasks, this`stage
      ensures Linked() && (o.NotFound? ==> o.missing.tasklib)
      ensures o.NotFound? <==> d.name !in Resolved(w, stage.got)
      ensures !o.NotFound? ==> (o == Failed <==> Raises(d))
      ensures stage == old(stage).(got := old(stage).got + {d.name}, reg := if o.NotFound? then old(stage).reg
                else old(stage).reg + {d.name})
    {
      Arriving(w, stage, py.disk.Keys, d.name);
      IndexAdd(w.defs, stage.reg, d.name);
      o := Register(d);
      assert py.disk.Keys == old(py.disk).Keys + {d.m};
      StillFound(w, stage, d.name, !o.NotFound?);
      stage := stage.(got := stage.got + {d.name}, reg := if o.NotFound? then stage.reg else stage.reg + {d.name});
    }

    /** load_from_source of the task class registry; `raised` stands for its exception. */
    method LoadFromSource(d: Def) returns (raised: bool)
      requires Valid() && Known(w, d)
      modifies py, this`unitTasks, this`compositeTasks, this`bindings, this`pending, this`stage
      ensures Linked() && PendingOk() && Received(stage) == Add(Received(old(stage)), TaskDefinition(d))
      ensures Now() == Arrive(w, stage.got, old(Now()), d)
      ensures raised <==> d.name in Resolved(w, stage.got) && Raises(d)
      ensures UnitNames(w.defs, stage.reg) <= stage.bound + if raised then {} else {d.name}
    {
      NamesAppend(pending, d);
      IndexAdd(w.defs, stage.reg, d.name);
      var o := Introduce(d);
      match o {
        case Done =>
          BindPendingTasks();
        case NotFound(missing) =>
          if missing.tasklib {
            pending := pending + [d];
          }
        case Failed =>
      }
      raised := o == Failed;
    }

    /** load_from_source of the descriptor registry. */
    method LoadDescriptor(x: Descriptor)
      requires Valid() && x.task in w.descriptors && w.descriptors[x.task] == x && x.task !in stage.gotDescriptors
      modifies py, this`bindings, this`stage
      ensures Valid() && stage == old(stage).(gotDescriptors := old(stage).gotDescriptors + {x.task})
    {
      ghost var n, s := x.task, stage;
      assert w.GoodDescriptor(n);
      stage := s.(gotDescriptors := s.gotDescriptors + {n});
      if x.task !in unitTasks && x.task !in compositeTasks {
        ReceivedLater(w.descriptors, s.gotDescriptors, s.bound, n);
        assert Queue(bindings.pending, x.task) + [x] == [x];
        bindings := bindings.(pending := bindings.pending[x.task := Queue(bindings.pending, x.task) + [x]]);
      } else {
        ReceivedNow(w.descriptors, s.gotDescriptors, s.bound, n);
        assert Found(w, s.got, n);
        OnDisk(w, s.got, py.disk.Keys, n);
        InstallQueued(x);
      }
    }

    /** _handle_object for an added or modified task definition. */
    method HandleDefinition(d: Def)
      requires Valid() && Known(w, d)
      modifies py, this`unitTasks, this`compositeTasks, this`bindings, this`pending, this`stage
      ensures Valid() && Received(stage) == Add(Received(old(stage)), TaskDefinition(d))
      ensures Now() == Arrive(w, stage.got, old(Now()), d)
    {
      var raised := LoadFromSource(d);
      if !raised && d.isUnit && d.name in unitTasks {
        BindPendingDescriptor(unitTasks[d.name]);
      }
    }

    /** _handle_object for an event that adds a definition or a descriptor. */
    method HandleObject(e: Event)
      requires Valid() && Expected(w, Received(stage), e)
      modifies this, py
      ensures Valid() && Received(stage) == Add(Received(old(stage)), e)
      ensures Now() == if e.TaskDefinition? then Arrive(w, stage.got, old(Now()), e.d) else old(Now())
    {
      match e {
        case TaskDefinition(d) =>
          HandleDefinition(d);
        case ExecutionDescriptor(x) =>
          LoadDescriptor(x);
      }
    }

    /**
     The watcher over any sequence of events; definitions may be delivered again. If no definition raises,
     all tables are up to date after it.
     */
    method Watch(events: seq<Event>)
      requires Valid() && AllExpected(w, Received(stage), events)
      modifies this, py
      ensures Valid() && Received(stage) == AddAll(Received(old(stage)), events)
      ensures Now() == ArriveAll(w, Received(old(stage)), old(Now()), events)
      ensures old(Now()) == UpToDate(w, old(stage).got) && NoneRaises(events) ==> AllUpToDate()
    {
      ghost var before, p := Received(stage), Now();
      for n := 0 to |events|
        invariant Valid() && Received(stage) == AddAll(before, events[..n])
        invariant Now() == ArriveAll(w, before, p, events[..n])
      {
        ExpectedPrefix(w, before, events, n + 1);
        assert events[..n + 1][..n] == events[..n];
        HandleObject(events[n]);
      }
      assert events[..|events|] == events;
      if p == UpToDate(w, before.defs) && NoneRaises(events) {
        StaysUpToDate(w, before, events);
      }
    }

    /** Registered, queued and bound is exactly what the received definitions and descriptors determine. */
    ghost predicate AllUpToDate()
      reads this
    {
      var now := Resolved(w, stage.got);
      && unitTasks == UnitIndex(w.defs, now) && compositeTasks == CompositeIndex(w.defs, now)
      && Names(pending) == stage.got - now
      && bindings == BindingsOf(w.descriptors, stage.gotDescriptors, UnitNames(w.defs, now))
    }
  }

  ghost predicate Known(w: World, d: Def) {
    d.name in w.defs && w.defs[d.name] == d && w.GoodDef(d.name)
  }

  ghost predicate AllKnown(w: World, items: seq<Def>) {
    forall d :: d in items ==> Known(w, d)
  }

  function Names(items: seq<Def>): set<nat> {
    set d | d in items :: d.name
  }

  lemma NamesAppend(items: seq<Def>, d: Def)
    ensures Names(items + [d]) == Names(items) + {d.name}
  {
    assert d in items + [d];
    forall n | n in Names(items) ensures n in Names(items + [d]) {
      var x :| x in items && x.name == n;
      assert x in items + [d];
    }
  }

  lemma RetryStep(reg: set<nat>, names: set<nat>, now: set<nat>, n: nat)
    ensures reg + (names + {n}) * now == if n in now then reg + names * now + {n} else reg + names * now
    ensures names + {n} - now == if n in now then names - now else names - now + {n}
  {
  }

  lemma InNames(items: seq<Def>, i: nat)
    requires i < |items|
    ensures items[i].name in Names(items)
  {
  }

  /** Registering more tasks, and binding all of these, with nothing new received. */
  ghost predicate Continues(w: World, s: Stage, t: Stage) {
    && t.got == s.got && t.gotDescriptors == s.gotDescriptors && s.reg <= t.reg && s.bound <= t.bound
    && UnitNames(w.defs, t.reg) - UnitNames(w.defs, s.reg) <= t.bound
  }

  /** The effect of a definition's source on the disk, which may hold it already. */
  lemma Rewritten(w: World, s: Stage, have: set<Module>, n: nat)
    requires s.got <= w.defs.Keys && n in s.got && n in w.defs
    requires have * TaskModules(w) == Modules(w, s.got)
    ensures w.GoodDef(n) && w.defs[n].m in have
    ensures Importable(w.c, have, w.defs[n].m) <==> n in Resolved(w, s.got)
  {
    ModulesAdd(w, s.got, n);
    OnDisk(w, s.got, have, n);
  }

  lemma Arriving(w: World, s: Stage, have: set<Module>, n: nat)
    requires n in w.defs && s.Fits(w) && have * TaskModules(w) == Modules(w, s.got)
    ensures w.GoodDef(n)
    ensures var m, got := w.defs[n].m, s.got + {n};
            && (have + {m}) * TaskModules(w) == Modules(w, got)
            && (Importable(w.c, have + {m}, m) <==> n in Resolved(w, got))
            && Resolved(w, s.got) <= Resolved(w, got)
            && (n !in Resolved(w, got) ==> Resolved(w, s.got) == Resolved(w, got))
  {
    ResolvedAdd(w, s.got, n);
    ModulesAdd(w, s.got, n);
    ModulesAdd(w, w.defs.Keys, n);
    Rewritten(w, s.(got := s.got + {n}), have + {w.defs[n].m}, n);
  }

  /** The task has a descriptor of this name already. */
  predicate HasDescriptor(b: Bindings, x: Descriptor) {
    x.task in b.registry && x.name in b.registry[x.task]
  }

  ghost predicate Unbound(b: Bindings, n: nat) {
    n !in b.registry && n !in b.defaults && n !in b.pending
  }

  /** What binding does to the tables: nothing without a queued descriptor, and else it moves it. */
  ghost function Bind(b: Bindings, x: Descriptor): Bindings {
    Bindings(b.registry[x.task := map[x.name := x]], b.defaults[x.task := x], b.pending - {x.task})
  }

  lemma BoundNothing(xs: map<nat, Descriptor>, got: set<nat>, bound: set<nat>, n: nat)
    requires n in xs ==> n in bound || n !in got
    ensures BindingsOf(xs, got, bound + {n}) == BindingsOf(xs, got, bound)
  {
    assert RegistryOf(xs, got, bound + {n}) == RegistryOf(xs, got, bound);
    assert DefaultsOf(xs, got, bound + {n}) == DefaultsOf(xs, got, bound);
    assert QueuedOf(xs, got, bound + {n}) == QueuedOf(xs, got, bound);
  }

  lemma BoundOne(xs: map<nat, Descriptor>, got: set<nat>, bound: set<nat>, n: nat)
    requires n in xs && n in got && xs[n].task == n
    ensures BindingsOf(xs, got, bound + {n}) == Bind(BindingsOf(xs, got, bound), xs[n])
  {
    var b, x := BindingsOf(xs, got, bound), xs[n];
    assert RegistryOf(xs, got, bound + {n}) == b.registry[n := map[x.name := x]];
    assert DefaultsOf(xs, got, bound + {n}) == b.defaults[n := x];
    assert QueuedOf(xs, got, bound + {n}) == b.pending - {n};
  }

  lemma BindEffect(w: World, got: set<nat>, bound: set<nat>, n: nat)
    ensures var b, b' := BindingsOf(w.descriptors, got, bound), BindingsOf(w.descriptors, got, bound + {n});
            if n !in b.pending then b' == b
            else n in w.descriptors && w.descriptors[n].task == n && b.pending[n] == [w.descriptors[n]]
                 && Unbound(b.(pending := b.pending - {n}), n) && b' == Bind(b, w.descriptors[n])
  {
    if n in QueuedOf(w.descriptors, got, bound) {
      assert w.GoodDescriptor(n);
      BoundOne(w.descriptors, got, bound, n);
    } else {
      BoundNothing(w.descriptors, got, bound, n);
    }
  }

  lemma ReceivedLater(xs: map<nat, Descriptor>, got: set<nat>, bound: set<nat>, n: nat)
    requires n in xs && n !in got && n !in bound
    ensures var b := BindingsOf(xs, got, bound);
            n !in b.pending && BindingsOf(xs, got + {n}, bound) == b.(pending := b.pending[n := [xs[n]]])
  {
    var b := BindingsOf(xs, got, bound);
    assert RegistryOf(xs, got + {n}, bound) == b.registry;
    assert DefaultsOf(xs, got + {n}, bound) == b.defaults;
    assert QueuedOf(xs, got + {n}, bound) == b.pending[n := [xs[n]]];
  }

  lemma ReceivedNow(xs: map<nat, Descriptor>, got: set<nat>, bound: set<nat>, n: nat)
    requires n in xs && n !in got && n in bound && xs[n].task == n
    ensures var b := BindingsOf(xs, got, bound);
            n !in b.registry && n !in b.defaults && BindingsOf(xs, got + {n}, bound) == Bind(b, xs[n])
  {
    ReceivedRegistered(xs, got, bound, n);
    assert QueuedOf(xs, got + {n}, bound) == QueuedOf(xs, got, bound) == QueuedOf(xs, got, bound) - {n};
  }

  lemma ReceivedRegistered(xs: map<nat, Descriptor>, got: set<nat>, bound: set<nat>, n: nat)
    requires n in xs && n !in got && n in bound
    ensures RegistryOf(xs, got + {n}, bound) == RegistryOf(xs, got, bound)[n := map[xs[n].name := xs[n]]]
    ensures DefaultsOf(xs, got + {n}, bound) == DefaultsOf(xs, got, bound)[n := xs[n]]
  {
  }

  /** pending[task] of a defaultdict(list). */
  function Queue(pending: map<nat, seq<Descriptor>>, task: nat): seq<Descriptor> {
    if task in pending then pending[task] else []
  }

  // ---- events ----

  datatype Arrivals = Arrivals(defs: set<nat>, descriptors: set<nat>)

  ghost function Received(s: Stage): Arrivals { Arrivals(s.got, s.gotDescriptors) }

  function Add(a: Arrivals, e: Event): Arrivals {
    match e
    case TaskDefinition(d) => a.(defs := a.defs + {d.name})
    case ExecutionDescriptor(x) => a.(descriptors := a.descriptors + {x.task})
  }

  function AddAll(a: Arrivals, events: seq<Event>): Arrivals {
    if |events| == 0 then a else Add(AddAll(a, events[..|events| - 1]), events[|events| - 1])
  }

  ghost predicate Expected(w: World, a: Arrivals, e: Event) {
    match e
    case TaskDefinition(d) => Known(w, d)
    case ExecutionDescriptor(x) => x.task in w.descriptors && w.descriptors[x.task] == x && x.task !in a.descriptors
  }

  /** A descriptor is delivered once; a definition any number of times. */
  ghost predicate AllExpected(w: World, a: Arrivals, events: seq<Event>) {
    |events| > 0 ==>
      var n := |events| - 1;
      AllExpected(w, a, events[..n]) && Expected(w, AddAll(a, events[..n]), events[n])
  }

  lemma {:induction false} ExpectedPrefix(w: World, a: Arrivals, events: seq<Event>, n: nat)
    requires AllExpected(w, a, events) && n <= |events|
    ensures AllExpected(w, a, events[..n])
    ensures n > 0 ==> Expected(w, AddAll(a, events[..n - 1]), events[n - 1])
    decreases |events|
  {
    if n == |events| {
      assert events[..n] == events;
    } else {
      var front := events[..|events| - 1];
      ExpectedPrefix(w, a, front, n);
      assert front[..n] == events[..n];
      assert n > 0 ==> front[..n - 1] == events[..n - 1];
    }
  }

  ghost function ArriveAll(w: World, a: Arrivals, p: Progress, events: seq<Event>): Progress {
    if |events| == 0 then p
    else
      var front, e := events[..|events| - 1], events[|events| - 1];
      var before := ArriveAll(w, a, p, front);
      if e.TaskDefinition? then Arrive(w, AddAll(a, events).defs, before, e.d) else before
  }

  predicate NoneRaises(events: seq<Event>) {
    forall e :: e in events && e.TaskDefinition? ==> !Raises(e.d)
  }

  lemma {:induction false} StaysUpToDate(w: World, a: Arrivals, events: seq<Event>)
    requires a.defs <= w.defs.Keys && AllExpected(w, a, events) && NoneRaises(events)
    ensures AddAll(a, events).defs <= w.defs.Keys
    ensures ArriveAll(w, a, UpToDate(w, a.defs), events) == UpToDate(w, AddAll(a, events).defs)
  {
    if |events| > 0 {
      var front, e := events[..|events| - 1], events[|events| - 1];
      assert e in events && forall x :: x in front ==> x in events;
      StaysUpToDate(w, a, front);
      if e.TaskDefinition? {
        StaysUpToDateIff(w, AddAll(a, front).defs, e.d);
      }
    }
  }

  /** What has arrived is the union over the events, in whatever order they came. */
  lemma {:induction false} ArrivedIsUnion(a: Arrivals, events: seq<Event>, n: nat)
    ensures n in AddAll(a, events).defs <==>
              n in a.defs || exists e :: e in events && e.TaskDefinition? && e.d.name == n
    ensures n in AddAll(a, events).descriptors <==>
              n in a.descriptors || exists e :: e in events && e.ExecutionDescriptor? && e.x.task == n
  {
    if |events| > 0 {
      var k := |events| - 1;
      ArrivedIsUnion(a, events[..k], n);
      assert events == events[..k] + [events[k]];
      assert events[k] in events;
      forall e | e in events[..k] ensures e in events {}
    }
  }

  /** Two deliveries of the same events, in any two orders, leave the same registries. */
  lemma {:induction false} SameEventsSameRegistries(w: World, events: seq<Event>, events': seq<Event>)
    requires multiset(events) == multiset(events') && NoneRaises(events)
    requires AllExpected(w, Arrivals({}, {}), events) && AllExpected(w, Arrivals({}, {}), events')
    ensures var start := Arrivals({}, {});
            && AddAll(start, events) == AddAll(start, events')
            && ArriveAll(w, start, UpToDate(w, {}), events) == ArriveAll(w, start, UpToDate(w, {}), events')
  {
    var start := Arrivals({}, {});
    assert forall e :: e in events <==> e in multiset(events);
    assert forall e :: e in events' <==> e in multiset(events');
    var a, a' := AddAll(start, events), AddAll(start, events');
    forall n ensures (n in a.defs <==> n in a'.defs) && (n in a.descriptors <==> n in a'.descriptors) {
      ArrivedIsUnion(start, events, n);
      ArrivedIsUnion(start, events', n);
    }
    assert a.defs == a'.defs && a.descriptors == a'.descriptors;
    StaysUpToDate(w, start, events);
    StaysUpToDate(w, start, events');
  }
}
