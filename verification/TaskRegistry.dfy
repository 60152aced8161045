/**
 Out-of-order loading of task classes and execution descriptors. Definitions arrive in any order;
 what cannot be imported yet is queued. The model of Python's import is the part it relies on:
 a module is loaded from disk after everything that it imports.
*/
module TaskRegistry {
  import opened Options

  /** `tasklib` says that the name starts with "cornserve_tasklib." or "cornserve.". */
  datatype Module = Module(tasklib: bool, id: nat)

  /** What a name in a module turns out to be; `typed` says that its generic arguments were found. */
  datatype ClassKind = UnitClass(typed: bool) | TaskClass | DescriptorClass | OtherClass

  datatype Source = Source(imports: seq<Module>, classes: map<nat, ClassKind>)

  datatype Def = Def(name: nat, m: Module, source: Source, isUnit: bool)

  datatype Descriptor = Descriptor(name: nat, m: Module, source: Source, task: nat)

  /** A set of sources that may arrive, one for each module, without cyclic imports. */
  datatype RawCatalog = RawCatalog(sources: map<Module, Source>, builtin: set<Module>, rank: Module -> nat)
  {
    ghost predicate Ok() {
      forall m {:trigger ImportsOk(m)} :: m in sources ==> m.tasklib && m !in builtin && ImportsOk(m)
    }

    ghost predicate ImportsOk(m: Module)
      requires m in sources
    {
      forall i :: 0 <= i < |sources[m].imports| ==>
        var x := sources[m].imports[i];
        rank(x) < rank(m) && (x in builtin || x.tasklib)
    }
  }

  type Catalog = c: RawCatalog | c.Ok() ghost witness RawCatalog(map[], {}, m => 0)

  /** All of `m`'s transitive imports are available when the modules in `have` are. */
  ghost predicate Importable(c: Catalog, have: set<Module>, m: Module)
    decreases c.rank(m)
  {
    m in c.builtin || (m in have && m in c.sources && ImportsAvailable(c, have, m, |c.sources[m].imports|))
  }

  /** ... and so are the first `n` imports of `m`. */
  ghost predicate ImportsAvailable(c: Catalog, have: set<Module>, m: Module, n: nat)
    requires m in c.sources && n <= |c.sources[m].imports|
    decreases c.rank(m), n
  {
    assert c.ImportsOk(m);
    forall i :: 0 <= i < n ==>
        c.rank(c.sources[m].imports[i]) < c.rank(m) && Importable(c, have, c.sources[m].imports[i])
  }

  lemma {:induction false} ImportableMonotone(c: Catalog, have: set<Module>, more: set<Module>, m: Module)
    requires have <= more && Importable(c, have, m)
    ensures Importable(c, more, m)
    decreases c.rank(m)
  {
    if m !in c.builtin {
      forall i | 0 <= i < |c.sources[m].imports| ensures Importable(c, more, c.sources[m].imports[i]) {
        ImportableMonotone(c, have, more, c.sources[m].imports[i]);
      }
    }
  }

  /** A new source that cannot be imported itself makes nothing else importable. */
  lemma {:induction false} UselessAddition(c: Catalog, have: set<Module>, x: Module, m: Module)
    requires !Importable(c, have + {x}, x) && Importable(c, have + {x}, m)
    ensures Importable(c, have, m)
    decreases c.rank(m)
  {
    if m !in c.builtin {
      forall i | 0 <= i < |c.sources[m].imports| ensures Importable(c, have, c.sources[m].imports[i]) {
        UselessAddition(c, have, x, c.sources[m].imports[i]);
      }
    }
  }

  /** Modules outside a set that is closed under imports do not matter to it. */
  lemma {:induction false} OnlyTasksMatter(c: Catalog, tasks: set<Module>, have: set<Module>, m: Module)
    requires Closed(c, tasks) && (m in tasks || m in c.builtin || m !in c.sources)
    ensures Importable(c, have, m) == Importable(c, have * tasks, m)
    decreases c.rank(m)
  {
    if m !in c.builtin && m in c.sources {
      forall i | 0 <= i < |c.sources[m].imports|
        ensures Importable(c, have, c.sources[m].imports[i]) == Importable(c, have * tasks, c.sources[m].imports[i])
      {
        assert c.ImportsOk(m);
        OnlyTasksMatter(c, tasks, have, c.sources[m].imports[i]);
      }
    }
  }

  ghost predicate Closed(c: Catalog, tasks: set<Module>) {
    forall m, i :: m in tasks && m in c.sources && 0 <= i < |c.sources[m].imports| ==>
      var x := c.sources[m].imports[i];
      x in tasks || x in c.builtin || x !in c.sources
  }

  // ---- disk and loaded modules ----

  datatype RawImage = RawImage(c: Catalog, disk: map<Module, Source>, loaded: map<Module, Source>)
  {
    ghost predicate Ok() { FromCatalog(c, disk) && LoadedOk(c, disk, loaded) }
  }

  /** Files and loaded modules that agree: a loaded module was imported from the file that is there. */
  type Image = i: RawImage | i.Ok() ghost witness RawImage(RawCatalog(map[], {}, m => 0), map[], map[])

  /** TASKLIB_DIR and sys.modules; `loaded` holds the text that each module was loaded from. */
  class Interpreter {
    ghost const c: Catalog
    const builtin: set<Module>
    var disk: map<Module, Source>
    var loaded: map<Module, Source>
    ghost var image: Image

    ghost predicate Valid()
      reads this
    {
      builtin == c.builtin && image == RawImage(c, disk, loaded)
    }

    constructor (ghost c: Catalog, builtin: set<Module>)
      requires builtin == c.builtin
      ensures Valid() && this.c == c && disk == loaded == map[]
    {
      this.c, this.builtin := c, builtin;
      disk, loaded := map[], map[];
      image := RawImage(c, map[], map[]);
    }

    /** import_module: None, or the module that was not found. */
    method ImportModule(m: Module) returns (missing: Option<Module>)
      requires Valid()
      modifies this`loaded, this`image
      ensures Valid()
      ensures missing == None <==> Importable(c, disk.Keys, m)
      ensures missing == None ==> m in c.builtin || m in loaded
      ensures missing.Some? ==> missing.value.tasklib || missing.value == m
      decreases c.rank(m)
    {
      if m in loaded || m in builtin {
        return None;
      }
      if m !in disk {
        return Some(m);
      }
      var imports := disk[m].imports;
      for i := 0 to |imports|
        invariant Valid() && ImportsAvailable(c, disk.Keys, m, i)
      {
        assert c.ImportsOk(m);
        var r := ImportModule(imports[i]);
        if r.Some? {
          return r;
        }
      }
      loaded := loaded[m := disk[m]];
      image := RawImage(c, disk, loaded);
      return None;
    }

    /** write_to_file_and_import; `conflict` stands for the NotImplementedError on changing a loaded module. */
    method WriteAndImport(m: Module, source: Source) returns (missing: Option<Module>, conflict: bool)
      requires Valid() && m in c.sources && c.sources[m] == source
      modifies this
      ensures Valid() && disk == old(disk)[m := source]
      ensures !conflict && (missing == None <==> Importable(c, disk.Keys, m))
      ensures missing.Some? ==> missing.value.tasklib
    {
      assert c.ImportsOk(m);
      var sameContent := m in disk && disk[m] == source;
      StillImportable(c, disk, loaded, m, source);
      if !sameContent {
        disk := disk[m := source];
        image := RawImage(c, disk, loaded);
      }
      assert disk == old(disk)[m := source];
      if m in loaded {
        return None, !sameContent;
      }
      missing := ImportModule(m);
      conflict := false;
    }
  }

  ghost predicate FromCatalog(c: Catalog, disk: map<Module, Source>) {
    forall m :: m in disk ==> m in c.sources && disk[m] == c.sources[m]
  }

  ghost predicate LoadedOk(c: Catalog, disk: map<Module, Source>, loaded: map<Module, Source>)
  {
    forall m :: m in loaded ==> m in disk && loaded[m] == disk[m] && Importable(c, disk.Keys, m)
  }

  lemma StillImportable(c: Catalog, disk: map<Module, Source>, loaded: map<Module, Source>, m: Module, source: Source)
    requires FromCatalog(c, disk) && LoadedOk(c, disk, loaded) && m in c.sources && c.sources[m] == source
    ensures LoadedOk(c, disk[m := source], loaded)
  {
    forall x | x in loaded ensures Importable(c, disk[m := source].Keys, x) {
      ImportableMonotone(c, disk.Keys, disk[m := source].Keys, x);
    }
  }

  // ---- what may arrive ----

  /** All task definitions, by name, and all execution descriptors, by the task that they are for. */
  datatype RawWorld = RawWorld(c: Catalog, defs: map<nat, Def>, descriptors: map<nat, Descriptor>)
  {
    ghost predicate Ok() {
      && Closed(c, ModulesOf(defs, defs.Keys))
      && (forall n {:trigger GoodDef(n)} :: n in defs ==> GoodDef(n))
      && (forall n {:trigger GoodDescriptor(n)} :: n in descriptors ==> GoodDescriptor(n))
    }

    ghost predicate GoodDef(n: nat)
      requires n in defs
    {
      var d := defs[n];
      d.name == n && d.m in c.sources && c.sources[d.m] == d.source
    }

    /** A descriptor is for a unit task and imports nothing beyond what that task's module does. */
    ghost predicate GoodDescriptor(n: nat)
      requires n in descriptors
    {
      var x := descriptors[n];
      && x.task == n && x.m in c.sources && c.sources[x.m] == x.source && x.m !in ModulesOf(defs, defs.Keys)
      && x.name in x.source.classes && x.source.classes[x.name].DescriptorClass?
      && n in defs && defs[n].isUnit && ImportsWithin(c, x.m, defs[n].m)
    }
  }

  type World = w: RawWorld | w.Ok() ghost witness RawWorld(RawCatalog(map[], {}, m => 0), map[], map[])

  ghost function ModulesOf(defs: map<nat, Def>, names: set<nat>): set<Module> {
    set n | n in names && n in defs :: defs[n].m
  }

  ghost predicate ImportsWithin(c: Catalog, m: Module, other: Module)
    requires m in c.sources
  {
    forall i :: 0 <= i < |c.sources[m].imports| ==> var x := c.sources[m].imports[i];
        x in c.builtin || Reaches(c, other, x)
  }

  predicate KindFits(d: Def) {
    d.name in d.source.classes &&
    if d.isUnit then d.source.classes[d.name] == UnitClass(true)
    else d.source.classes[d.name].TaskClass? || d.source.classes[d.name].UnitClass?
  }

  /** Registering the definition fails with an exception; a unit task without generic types only draws a warning. */
  predicate Raises(d: Def) {
    !KindFits(d) && !(d.isUnit && d.name in d.source.classes && d.source.classes[d.name] == UnitClass(false))
  }

  /** `x` is `m` or one of its transitive imports. */
  ghost predicate Reaches(c: Catalog, m: Module, x: Module)
    decreases c.rank(m)
  {
    m == x || (m in c.sources && m !in c.builtin && c.ImportsOk(m) &&
      exists i :: 0 <= i < |c.sources[m].imports| && Reaches(c, c.sources[m].imports[i], x))
  }

  lemma {:induction false} ReachedIsImportable(c: Catalog, have: set<Module>, m: Module, x: Module)
    requires Importable(c, have, m) && Reaches(c, m, x)
    ensures Importable(c, have, x)
    decreases c.rank(m)
  {
    if m != x {
      var i :| 0 <= i < |c.sources[m].imports| && Reaches(c, c.sources[m].imports[i], x);
      ReachedIsImportable(c, have, c.sources[m].imports[i], x);
    }
  }

  /** The source of `m` can be loaded: it comes with Python, or it is there. */
  predicate There(c: Catalog, have: set<Module>, m: Module) { m in c.builtin || (m in have && m in c.sources) }

  /** A module can be imported exactly if it and all of its transitive imports are there. */
  lemma ImportableIff(c: Catalog, have: set<Module>, m: Module)
    ensures Importable(c, have, m) <==> AllThere(c, have, m)
  {
    forall x | Importable(c, have, m) && Reaches(c, m, x) ensures There(c, have, x) {
      ReachedIsImportable(c, have, m, x);
    }
    if AllThere(c, have, m) { AllThereIsImportable(c, have, m); }
  }

  ghost predicate AllThere(c: Catalog, have: set<Module>, m: Module) {
    forall x {:trigger Reaches(c, m, x)} :: Reaches(c, m, x) ==> There(c, have, x)
  }

  lemma {:induction false} AllThereIsImportable(c: Catalog, have: set<Module>, m: Module)
    requires AllThere(c, have, m)
    ensures Importable(c, have, m)
    decreases c.rank(m)
  {
    assert Reaches(c, m, m) && There(c, have, m);
    if m !in c.builtin {
      assert c.ImportsOk(m);
      var imports := c.sources[m].imports;
      forall i | 0 <= i < |imports| ensures c.rank(imports[i]) < c.rank(m) && Importable(c, have, imports[i]) {
        forall x | Reaches(c, imports[i], x) ensures There(c, have, x) { assert Reaches(c, m, x); }
        AllThereIsImportable(c, have, imports[i]);
      }
      assert ImportsAvailable(c, have, m, |imports|);
    }
  }

  // ---- the outcome that only depends on what has arrived ----

  ghost function Modules(w: World, got: set<nat>): set<Module> { ModulesOf(w.defs, got) }

  ghost function TaskModules(w: World): set<Module> { ModulesOf(w.defs, w.defs.Keys) }

  /** The received definitions whose transitive imports are all received. */
  ghost function Resolved(w: World, got: set<nat>): set<nat> {
    set n | n in got && n in w.defs && Importable(w.c, Modules(w, got), w.defs[n].m)
  }

  lemma ModulesAdd(w: World, got: set<nat>, n: nat)
    requires n in w.defs
    ensures Modules(w, got + {n}) == Modules(w, got) + {w.defs[n].m}
    ensures n in got ==> w.defs[n].m in Modules(w, got)
  {
    var more := Modules(w, got + {n});
    assert n in got + {n};
    forall m | m in Modules(w, got) ensures m in more {
      var k :| k in got && k in w.defs && w.defs[k].m == m;
      assert k in got + {n};
    }
  }

  /** Receiving a definition resolves nothing unless it can be imported itself, and it unresolves nothing. */
  lemma ResolvedAdd(w: World, got: set<nat>, n: nat)
    requires n in w.defs
    ensures Resolved(w, got) <= Resolved(w, got + {n})
    ensures n !in Resolved(w, got + {n}) ==> Resolved(w, got) == Resolved(w, got + {n})
  {
    ModulesAdd(w, got, n);
    var have, more := Modules(w, got), Modules(w, got + {n});
    forall k | k in Resolved(w, got) ensures k in Resolved(w, got + {n}) {
      ImportableMonotone(w.c, have, more, w.defs[k].m);
    }
    if n !in Resolved(w, got + {n}) {
      forall k | k in Resolved(w, got + {n}) ensures k in Resolved(w, got) {
        UselessAddition(w.c, have, w.defs[n].m, w.defs[k].m);
      }
    }
  }

  /** Whether a task resolves is decided on the disk, although that also holds descriptors. */
  lemma OnDisk(w: World, got: set<nat>, have: set<Module>, n: nat)
    requires have * TaskModules(w) == Modules(w, got) && n in got && n in w.defs
    ensures Importable(w.c, have, w.defs[n].m) <==> n in Resolved(w, got)
  {
    OnlyTasksMatter(w.c, TaskModules(w), have, w.defs[n].m);
  }

  ghost function UnitNames(defs: map<nat, Def>, names: set<nat>): set<nat> {
    set n | n in names && n in defs && defs[n].isUnit && KindFits(defs[n])
  }

  ghost function UnitIndex(defs: map<nat, Def>, reg: set<nat>): map<nat, Def> {
    map n | n in reg && n in defs && defs[n].isUnit && KindFits(defs[n]) :: defs[n]
  }

  ghost function CompositeIndex(defs: map<nat, Def>, reg: set<nat>): map<nat, Def> {
    map n | n in reg && n in defs && !defs[n].isUnit && KindFits(defs[n]) :: defs[n]
  }

  datatype Bindings = Bindings(registry: map<nat, map<nat, Descriptor>>, defaults: map<nat, Descriptor>,
          pending: map<nat, seq<Descriptor>>)

  /** Descriptors of the tasks in `bound` are registered, the other ones in `got` are queued. */
  ghost function BindingsOf(xs: map<nat, Descriptor>, got: set<nat>, bound: set<nat>): Bindings {
    Bindings(RegistryOf(xs, got, bound), DefaultsOf(xs, got, bound), QueuedOf(xs, got, bound))
  }

  ghost function RegistryOf(xs: map<nat, Descriptor>, got: set<nat>, bound: set<nat>): map<nat, map<nat, Descriptor>> {
    map n | n in got && n in xs && n in bound :: map[xs[n].name := xs[n]]
  }

  ghost function DefaultsOf(xs: map<nat, Descriptor>, got: set<nat>, bound: set<nat>): map<nat, Descriptor> {
    map n | n in got && n in xs && n in bound :: xs[n]
  }

  ghost function QueuedOf(xs: map<nat, Descriptor>, got: set<nat>, bound: set<nat>): map<nat, seq<Descriptor>> {
    map n | n in got && n in xs && n !in bound :: [xs[n]]
  }

  lemma IndexAdd(defs: map<nat, Def>, reg: set<nat>, n: nat)
    requires n in defs
    ensures UnitIndex(defs, reg + {n}) == if defs[n].isUnit
              && KindFits(defs[n]) then UnitIndex(defs, reg)[n := defs[n]] else UnitIndex(defs, reg)
    ensures CompositeIndex(defs, reg + {n}) == if !defs[n].isUnit
              && KindFits(defs[n]) then CompositeIndex(defs, reg)[n := defs[n]] else CompositeIndex(defs, reg)
    ensures UnitNames(defs, reg + {n}) == if defs[n].isUnit
              && KindFits(defs[n]) then UnitNames(defs, reg) + {n} else UnitNames(defs, reg)
  {
  }

  /** The definitions import nothing but one another. */
  ghost predicate SelfContained(w: World) {
    forall x, i :: x in TaskModules(w) && x in w.c.sources && 0 <= i < |w.c.sources[x].imports| ==>
      w.c.sources[x].imports[i] in w.c.builtin || w.c.sources[x].imports[i] in TaskModules(w)
  }

  /** Everything resolves once everything that the definitions import has arrived. */
  lemma {:induction false} CompleteResolves(w: World, have: set<Module>, m: Module)
    requires TaskModules(w) <= have && m in TaskModules(w) && SelfContained(w)
    ensures Importable(w.c, have, m)
    decreases w.c.rank(m)
  {
    var n :| n in w.defs && w.defs[n].m == m;
    assert w.GoodDef(n) && w.c.ImportsOk(m);
    forall i | 0 <= i < |w.c.sources[m].imports| ensures Importable(w.c, have, w.c.sources[m].imports[i]) {
      var x := w.c.sources[m].imports[i];
      if x !in w.c.builtin { CompleteResolves(w, have, x); }
    }
  }

  /** Once everything has arrived, every task is registered and every descriptor is its task's default. */
  lemma AllArrived(w: World)
    requires SelfContained(w) && forall n :: n in w.defs ==> KindFits(w.defs[n])
    ensures Resolved(w, w.defs.Keys) == w.defs.Keys
    ensures BindingsOf(w.descriptors, w.descriptors.Keys, UnitNames(w.defs, w.defs.Keys)).defaults == w.descriptors
    ensures BindingsOf(w.descriptors, w.descriptors.Keys, UnitNames(w.defs, w.defs.Keys)).pending == map[]
  {
    forall n | n in w.defs ensures n in Resolved(w, w.defs.Keys) {
      CompleteResolves(w, TaskModules(w), w.defs[n].m);
    }
    forall n | n in w.descriptors ensures n in UnitNames(w.defs, w.defs.Keys) {
      assert w.GoodDescriptor(n);
    }
  }

  /** Once a task's module can be imported with a descriptor's source on disk, so can the descriptor's. */
  lemma DescriptorImportable(w: World, have: set<Module>, n: nat)
    requires n in w.descriptors && n in w.defs && Importable(w.c, have, w.defs[n].m)
    ensures Importable(w.c, have + {w.descriptors[n].m}, w.descriptors[n].m)
  {
    var m := w.descriptors[n].m;
    assert w.GoodDescriptor(n);
    ImportableMonotone(w.c, have, have + {m}, w.defs[n].m);
    forall i | 0 <= i < |w.c.sources[m].imports| ensures Importable(w.c, have + {m}, w.c.sources[m].imports[i]) {
      var y := w.c.sources[m].imports[i];
      if y !in w.c.builtin { ReachedIsImportable(w.c, have + {m}, w.defs[n].m, y); }
    }
    assert w.c.ImportsOk(m);
  }

  lemma DescriptorsApart(w: World, have: set<Module>, n: nat)
    requires n in w.descriptors
    ensures (have + {w.descriptors[n].m}) * TaskModules(w) == have * TaskModules(w)
  {
    assert w.GoodDescriptor(n);
  }
}
