/** Nested module imports over one table of at most 64 modules. */
module Importers {
  const MAX_MODULES: nat := 64

  /** `is_loaded`: 0, -1 and 1. */
  datatype Status = NotLoaded | Loading | Loaded

  datatype Module = Module(name: string, status: Status)

  /**
   Module files: which names are found and loaded as packages, which names resolve, which files can be read, what each
   imports, and whether it then runs without error.
   */
  datatype World = World(
    packaged: string -> bool,
    resolves: string -> bool,
    readable: string -> bool,
    imports: string -> seq<string>,
    succeeds: (string, seq<bool>) -> bool)

  /** What happens to modules over time. */
  datatype Event = Started(name: string) | Finished(name: string)

  // ---- The table ----

  predicate UniqueNames(ms: seq<Module>) {
    forall i, j :: 0 <= i < j < |ms| ==> ms[i].name != ms[j].name
  }

  predicate Has(ms: seq<Module>, name: string, status: Status) {
    exists i :: 0 <= i < |ms| && ms[i].name == name && ms[i].status == status
  }

  /** How many modules are being loaded. */
  function Busy(ms: seq<Module>): (n: nat)
    ensures n <= |ms|
  {
    if ms == [] then 0 else Busy(ms[..|ms| - 1]) + if ms[|ms| - 1].status == Loading then 1 else 0
  }

  lemma {:induction false} BusyUpdate(ms: seq<Module>, i: nat, m: Module)
    requires i < |ms|
    ensures Busy(ms[i := m]) == Busy(ms) - (if ms[i].status == Loading then 1 else 0) + (if m.status == Loading then 1 else 0)
    decreases |ms|
  {
    var n := |ms| - 1;
    if i < n {
      BusyUpdate(ms[..n], i, m);
      assert ms[i := m][..n] == ms[..n][i := m];
    } else {
      assert ms[i := m][..n] == ms[..n];
    }
  }

  /**
   What an import leaves as it was: names and positions, which modules are being loaded, which are loaded.
   It may add modules, but none of them is still being loaded.
   */
  predicate Settled(before: seq<Module>, after: seq<Module>) {
    && |before| <= |after|
    && (forall i :: 0 <= i < |before| ==>
      after[i].name == before[i].name
      && (after[i].status == Loading <==> before[i].status == Loading)
      && (before[i].status == Loaded ==> after[i].status == Loaded))
    && forall i :: |before| <= i < |after| ==> after[i].status != Loading
  }

  lemma {:induction false} SettledBusy(before: seq<Module>, after: seq<Module>)
    requires Settled(before, after)
    ensures Busy(after) == Busy(before)
    decreases |after|
  {
    var n := |after| - 1;
    if |before| < |after| {
      SettledBusy(before, after[..n]);
    } else if before != [] {
      SettledBusy(before[..n], after[..n]);
    }
  }

  // ---- What an import does ----

  /** Where the module is in the table, or the table's length. */
  function IndexOf(ms: seq<Module>, name: string): (i: nat)
    ensures i <= |ms| && (i < |ms| ==> ms[i].name == name) && forall j :: 0 <= j < i ==> ms[j].name != name
  {
    if ms == [] || ms[0].name == name then 0 else 1 + IndexOf(ms[1..], name)
  }

  lemma SettledJoins(a: seq<Module>, b: seq<Module>, c: seq<Module>)
    requires Settled(a, b) && Settled(b, c)
    ensures Settled(a, c)
  {
  }

  /** Importing `name`: whether it is loaded then, and the table. */
  function ImportOf(world: World, ms: seq<Module>, name: string): (r: (bool, seq<Module>))
    requires |ms| <= MAX_MODULES
    ensures |r.1| <= MAX_MODULES && Settled(ms, r.1)
    decreases MAX_MODULES - Busy(ms), 1, 0
  {
    var i := IndexOf(ms, name);
    if i < |ms| && ms[i].status != NotLoaded then (ms[i].status == Loaded, ms)
    else if !world.resolves(name) || |ms| >= MAX_MODULES then (false, ms)
    else LoadOf(world, ms, name)
  }

  /** The table with the module marked as being loaded, in a new entry if it has none. */
  function Marked(ms: seq<Module>, name: string): (r: seq<Module>)
    ensures IndexOf(ms, name) < |r| <= |ms| + 1
  {
    var i := IndexOf(ms, name);
    (if i < |ms| then ms else ms + [Module(name, NotLoaded)])[i := Module(name, Loading)]
  }

  lemma MarkedBusy(ms: seq<Module>, name: string)
    requires var i := IndexOf(ms, name); i < |ms| ==> ms[i].status == NotLoaded
    ensures Busy(Marked(ms, name)) == Busy(ms) + 1
  {
    var i := IndexOf(ms, name);
    if i < |ms| {
      BusyUpdate(ms, i, Module(name, Loading));
    } else {
      assert Marked(ms, name)[..i] == ms;
    }
  }

  /** Reading and running the source of a module that is not loaded. */
  function LoadOf(world: World, ms: seq<Module>, name: string): (r: (bool, seq<Module>))
    requires |ms| < MAX_MODULES && var i := IndexOf(ms, name); i < |ms| ==> ms[i].status == NotLoaded
    ensures |r.1| <= MAX_MODULES && Settled(ms, r.1)
    decreases MAX_MODULES - Busy(ms), 0, 0
  {
    var i, marked := IndexOf(ms, name), Marked(ms, name);
    MarkedBusy(ms, name);
    if !world.readable(name) then (false, marked[i := Module(name, NotLoaded)])
    else
      var (results, after) := ImportsOf(world, marked, world.imports(name));
      var ok := world.succeeds(name, results);
      (ok, after[i := Module(name, if ok then Loaded else NotLoaded)])
  }

  /** The imports of a source one after the other, those that are packages. */
  function ImportsOf(world: World, ms: seq<Module>, names: seq<string>): (r: (seq<bool>, seq<Module>))
    requires |ms| <= MAX_MODULES
    ensures |r.0| == |names| && |r.1| <= MAX_MODULES && Settled(ms, r.1)
    decreases MAX_MODULES - Busy(ms), 2, |names|
  {
    if names == [] then ([], ms)
    else
      var (ok, ms1) := if world.packaged(names[0]) then ImportOf(world, ms, names[0]) else (false, ms);
      SettledBusy(ms, ms1);
      var (rest, ms2) := ImportsOf(world, ms1, names[1..]);
      SettledJoins(ms, ms1, ms2);
      ([ok] + rest, ms2)
  }

  // ---- The trace ----

  /** No module is started after it has finished. */
  predicate NeverAgain(trace: seq<Event>) {
    forall i, j :: 0 <= i < j < |trace| && trace[i].Finished? ==> trace[j] != Started(trace[i].name)
  }

  /** Exactly the loaded modules have finished. */
  ghost predicate FinishedAreLoaded(trace: seq<Event>, ms: seq<Module>) {
    forall n :: Finished(n) in trace <==> Has(ms, n, Loaded)
  }

  /** Changing the status of one module changes which are loaded only in that one. */
  lemma LoadedAfter(ms: seq<Module>, index: nat, status: Status, n: string)
    requires index < |ms| && UniqueNames(ms) && ms[index].status != Loaded
    ensures var after := ms[index := Module(ms[index].name, status)];
      UniqueNames(after)
      && (Has(after, n, Loaded) <==> Has(ms, n, Loaded) || (n == ms[index].name && status == Loaded))
  {
    var after := ms[index := Module(ms[index].name, status)];
    if Has(ms, n, Loaded) {
      var i :| 0 <= i < |ms| && ms[i].name == n && ms[i].status == Loaded;
      assert after[i] == ms[i];
    }
    if Has(after, n, Loaded) && index < |after| {
      var i :| 0 <= i < |after| && after[i].name == n && after[i].status == Loaded;
      assert i != index ==> ms[i] == after[i];
    }
    if n == ms[index].name && status == Loaded {
      assert after[index].name == n;
    }
  }

  lemma NotLoadedAt(ms: seq<Module>, index: nat)
    requires index < |ms| && UniqueNames(ms) && ms[index].status != Loaded
    ensures !Has(ms, ms[index].name, Loaded)
  {
  }

  /** What was loaded stays loaded. */
  lemma StaysLoaded(before: seq<Module>, after: seq<Module>, names: seq<string>, n: nat, which: seq<bool>)
    requires Settled(before, after) && n <= |names| && n <= |which|
    requires forall j :: 0 <= j < n && which[j] ==> Has(before, names[j], Loaded)
    ensures forall j :: 0 <= j < n && which[j] ==> Has(after, names[j], Loaded)
  {
    forall j | 0 <= j < n && which[j]
      ensures Has(after, names[j], Loaded)
    {
      var i :| 0 <= i < |before| && before[i].name == names[j] && before[i].status == Loaded;
      assert after[i].status == Loaded;
    }
  }

  /** A module's status is the one at its first place. */
  lemma StatusAt(ms: seq<Module>, name: string)
    requires UniqueNames(ms)
    ensures var i := IndexOf(ms, name);
      forall s :: Has(ms, name, s) <==> i < |ms| && ms[i].status == s
  {
    var i := IndexOf(ms, name);
    if j :| 0 <= j < |ms| && ms[j].name == name {
      assert i == j;
    }
  }

  lemma StatusOf(ms: seq<Module>, i: nat)
    requires UniqueNames(ms) && i < |ms|
    ensures forall s :: Has(ms, ms[i].name, s) <==> ms[i].status == s
  {
  }

  lemma NewName(trace: seq<Event>, ms: seq<Module>, name: string)
    requires IndexOf(ms, name) == |ms| && UniqueNames(ms) && FinishedAreLoaded(trace, ms)
    ensures var more := ms + [Module(name, NotLoaded)];
      UniqueNames(more) && FinishedAreLoaded(trace, more) && Settled(ms, more) && Busy(more) == Busy(ms)
  {
    var more := ms + [Module(name, NotLoaded)];
    assert more[..|ms|] == ms;
    forall n
      ensures Has(more, n, Loaded) <==> Has(ms, n, Loaded)
    {
      if i :| 0 <= i < |ms| && ms[i].name == n && ms[i].status == Loaded {
        assert more[i] == ms[i];
      }
    }
  }

  lemma ImportIs(world: World, ms: seq<Module>, name: string)
    requires |ms| <= MAX_MODULES
    ensures var i := IndexOf(ms, name);
      ImportOf(world, ms, name) ==
        if i < |ms| && ms[i].status != NotLoaded then (ms[i].status == Loaded, ms)
        else if !world.resolves(name) || |ms| >= MAX_MODULES then (false, ms)
        else LoadOf(world, ms, name)
  {
    hide LoadOf;
  }

  /** The parts of a load. */
  lemma LoadIs(world: World, ms: seq<Module>, name: string)
    requires |ms| < MAX_MODULES && var i := IndexOf(ms, name); i < |ms| ==> ms[i].status == NotLoaded
    ensures var i, marked := IndexOf(ms, name), Marked(ms, name);
      && marked == (if i < |ms| then ms else ms + [Module(name, NotLoaded)])[i := Module(name, Loading)]
      && (!world.readable(name) ==> LoadOf(world, ms, name) == (false, marked[i := Module(name, NotLoaded)]))
      && (world.readable(name) ==>
        var (results, after) := ImportsOf(world, marked, world.imports(name));
        var ok := world.succeeds(name, results);
        i < |after| && LoadOf(world, ms, name) == (ok, after[i := Module(name, if ok then Loaded else NotLoaded)]))
  {
    hide ImportsOf;
  }

  /** From an unmarked table over the marked one to the end of a load. */
  lemma LoadSettles(unmarked: seq<Module>, index: nat, after: seq<Module>)
    requires index < |unmarked| && unmarked[index].status == NotLoaded
    requires Settled(unmarked[index := Module(unmarked[index].name, Loading)], after)
    ensures index < |after| && after[index] == Module(unmarked[index].name, Loading)
    ensures forall status :: status != Loading ==> Settled(unmarked, after[index := Module(unmarked[index].name, status)])
  {
  }

  lemma SettledSame(ms: seq<Module>)
    ensures Settled(ms, ms)
  {
  }

  lemma NoImports(world: World, ms: seq<Module>, names: seq<string>)
    requires |ms| <= MAX_MODULES
    ensures ImportsOf(world, ms, names[|names|..]) == ([], ms)
  {
  }

  lemma ImportsStep(world: World, ms: seq<Module>, names: seq<string>, i: nat)
    requires |ms| <= MAX_MODULES && i < |names|
    ensures var (ok, ms1) := if world.packaged(names[i]) then ImportOf(world, ms, names[i]) else (false, ms);
      && |ms1| <= MAX_MODULES
      && ImportsOf(world, ms, names[i..]).0 == [ok] + ImportsOf(world, ms1, names[i + 1..]).0
      && ImportsOf(world, ms, names[i..]).1 == ImportsOf(world, ms1, names[i + 1..]).1
  {
    hide ImportOf;
    assert names[i..][0] == names[i] && names[i..][1..] == names[i + 1..];
  }

  class Importer {
    const world: World
    var modules: seq<Module>
    ghost var trace: seq<Event>

    constructor (world: World)
      ensures Valid() && this.world == world && modules == [] && trace == []
    {
      this.world, modules, trace := world, [], [];
    }

    ghost predicate Valid()
      reads this
    {
      |modules| <= MAX_MODULES && UniqueNames(modules) && NeverAgain(trace) && FinishedAreLoaded(trace, modules)
    }

    method Find(name: string) returns (found: bool, index: nat)
      ensures index == IndexOf(modules, name) && (found <==> index < |modules|)
    {
      index := 0;
      while index < |modules|
        invariant index <= |modules| && forall i :: 0 <= i < index ==> modules[i].name != name
      {
        if modules[index].name == name {
          return true, index;
        }
        index := index + 1;
      }
      return false, index;
    }

    /**
     True exactly when the module is loaded afterwards. Importing a loaded module or one being loaded, or one that does
     not resolve or finds the table full, changes nothing. Otherwise, if its file can be read, the module is started, and
     then loaded exactly when its source succeeds with the outcomes of its own imports.
     */
    method ImportModule(name: string) returns (ok: bool, ghost results: seq<bool>)
      requires Valid()
      modifies this
      ensures Valid() && Settled(old(modules), modules) && old(trace) <= trace
      ensures (ok, modules) == ImportOf(world, old(modules), name)
      ensures ok <==> Has(modules, name, Loaded)
      ensures Has(old(modules), name, Loaded) || Has(old(modules), name, Loading) || |old(modules)| >= 64 ==>
        modules == old(modules) && trace == old(trace)
      ensures !Has(old(modules), name, Loaded) && !world.resolves(name) ==>
        !ok && modules == old(modules) && trace == old(trace)
      ensures
        (&& !Has(old(modules), name, Loaded) && !Has(old(modules), name, Loading) && |old(modules)| < 64
         && world.resolves(name) && world.readable(name)) ==>
          && old(trace) + [Started(name)] <= trace
          && results == ImportsOf(world, Marked(old(modules), name), world.imports(name)).0
          && ok == world.succeeds(name, results)
      decreases MAX_MODULES - Busy(modules), 1
    {
      hide Has, UniqueNames, NeverAgain, FinishedAreLoaded, ImportOf, ImportsOf, LoadOf, Marked, Settled, IndexOf, Busy;
      results := [];
      SettledSame(modules);
      ImportIs(world, modules, name);
      var found, index := Find(name);
      StatusAt(modules, name);
      if found {
        if modules[index].status == Loading {
          return false, [];
        }
        if modules[index].status == Loaded {
          return true, [];
        }
      }
      if !world.resolves(name) {
        return false, [];
      }
      if |modules| >= MAX_MODULES {
        return false, [];
      }
      if !found {
        NewName(trace, modules, name);
        modules := modules + [Module(name, NotLoaded)];
      }
      ghost var extended := modules;
      ok, results := Load(index, old(modules));
      SettledJoins(old(modules), extended, modules);
      StatusOf(modules, index);
    }

    /** The status of a module that is not loaded, with what it finishes. */
    method SetStatus(index: nat, status: Status)
      requires Valid() && index < |modules| && modules[index].status != Loaded
      modifies this
      ensures Valid() && modules == old(modules)[index := Module(old(modules)[index].name, status)]
      ensures trace == old(trace) + if status == Loaded then [Finished(old(modules)[index].name)] else []
    {
      ghost var before, name := modules, modules[index].name;
      modules := modules[index := Module(modules[index].name, status)];
      if status == Loaded {
        trace := trace + [Finished(name)];
      }
      forall n
        ensures Finished(n) in trace <==> Has(modules, n, Loaded)
      {
        LoadedAfter(before, index, status, n);
      }
      LoadedAfter(before, index, status, name);
    }

    /** The entry is marked while its file is read and run; `before` is the table before the entry was added. */
    method Load(index: nat, ghost before: seq<Module>) returns (ok: bool, ghost results: seq<bool>)
      requires Valid() && index < |modules| && modules[index].status == NotLoaded && |before| < MAX_MODULES
      requires index == IndexOf(before, modules[index].name)
      requires modules == if index < |before| then before else before + [Module(modules[index].name, NotLoaded)]
      modifies this
      ensures Valid() && Settled(old(modules), modules) && old(trace) <= trace
      ensures (ok, modules) == LoadOf(world, before, old(modules)[index].name)
      ensures index < |modules| && modules[index].name == old(modules)[index].name
      ensures ok <==> modules[index].status == Loaded
      ensures var name := old(modules)[index].name;
        world.readable(name) ==>
          && old(trace) + [Started(name)] <= trace
          && results == ImportsOf(world, Marked(before, name), world.imports(name)).0
          && ok == world.succeeds(name, results)
      decreases MAX_MODULES - Busy(modules), 0
    {
      hide UniqueNames, Has, NeverAgain, FinishedAreLoaded, ImportsOf, LoadOf, Marked;
      hide Settled;
      ghost var unmarked := modules;
      LoadIs(world, before, modules[index].name);
      var name := modules[index].name;
      results := [];
      SetStatus(index, Loading);
      BusyUpdate(unmarked, index, modules[index]);
      if !world.readable(name) {
        SettledSame(modules);
        LoadSettles(unmarked, index, modules);
        SetStatus(index, NotLoaded);
        return false, [];
      }
      Start(index);
      ok, results := Evaluate(name);
      LoadSettles(unmarked, index, modules);
      SetStatus(index, if ok then Loaded else NotLoaded);
    }

    /** The start of a module being loaded is recorded. */
    ghost method Start(index: nat)
      requires Valid() && index < |modules| && modules[index].status == Loading
      modifies `trace
      ensures Valid() && trace == old(trace) + [Started(modules[index].name)]
    {
      NotLoadedAt(modules, index);
      assert Finished(modules[index].name) !in trace;
      trace := trace + [Started(modules[index].name)];
    }

    /**
     Running a module's source imports what it imports, in order; one that is no package is not even tried, and a failed
     import does not stop it.
     */
    method Evaluate(name: string) returns (ok: bool, ghost loaded: seq<bool>)
      requires Valid()
      modifies this
      ensures Valid() && Settled(old(modules), modules) && old(trace) <= trace
      ensures (loaded, modules) == ImportsOf(world, old(modules), world.imports(name))
      ensures ok == world.succeeds(name, loaded)
      ensures forall i :: 0 <= i < |loaded| && loaded[i] ==>
        world.packaged(world.imports(name)[i]) && Has(modules, world.imports(name)[i], Loaded)
      decreases MAX_MODULES - Busy(modules), 2
    {
      hide Has, ImportOf, ImportsOf, Settled, UniqueNames, NeverAgain, FinishedAreLoaded;
      SettledSame(modules);
      var imports := world.imports(name);
      var results := [];
      assert imports[0..] == imports;
      for i := 0 to |imports|
        invariant Valid() && Settled(old(modules), modules) && old(trace) <= trace && |results| == i
        invariant forall j :: 0 <= j < i && results[j] ==> world.packaged(imports[j]) && Has(modules, imports[j], Loaded)
        invariant ImportsOf(world, old(modules), imports).0 == results + ImportsOf(world, modules, imports[i..]).0
        invariant ImportsOf(world, old(modules), imports).1 == ImportsOf(world, modules, imports[i..]).1
      {
        ghost var before := modules;
        SettledBusy(old(modules), modules);
        ImportsStep(world, modules, imports, i);
        var imported := world.packaged(imports[i]);
        if imported {
          ghost var inner;
          imported, inner := ImportModule(imports[i]);
          StaysLoaded(before, modules, imports, i, results);
          SettledJoins(old(modules), before, modules);
        }
        results := results + [imported];
      }
      NoImports(world, modules, imports);
      assert results + [] == results;
      return world.succeeds(name, results), results;
    }
  }

  // ---- Healthy worlds ----

  /**
   The names of `s` import only each other, and without cycles, as the ranks show; all are packages that resolve and can
   be read, and each runs without error once its imports are loaded.
   */
  ghost predicate Healthy(world: World, s: set<string>, rank: string -> nat) {
    forall n :: n in s ==>
      && world.packaged(n) && world.resolves(n) && world.readable(n)
      && world.succeeds(n, AllTrue(|world.imports(n)|))
      && forall m :: m in world.imports(n) ==> m in s && rank(m) < rank(n)
  }

  function AllTrue(n: nat): (bs: seq<bool>)
    ensures |bs| == n && forall i :: 0 <= i < n ==> bs[i]
  {
    seq(n, _ => true)
  }

  /** Every module of the table is loaded or being loaded, and with a loaded one its imports are. */
  ghost predicate Sound(world: World, s: set<string>, ms: seq<Module>) {
    && UniqueNames(ms)
    && (forall i :: 0 <= i < |ms| ==> ms[i].name in s && ms[i].status != NotLoaded)
    && forall i, m :: 0 <= i < |ms| && ms[i].status == Loaded && m in world.imports(ms[i].name) ==> Has(ms, m, Loaded)
  }

  /** What is being loaded has at least this rank. */
  predicate LoadingFrom(ms: seq<Module>, rank: string -> nat, bound: nat) {
    forall i :: 0 <= i < |ms| && ms[i].status == Loading ==> rank(ms[i].name) >= bound
  }

  /** Distinct names from a set are no more than the set has. */
  lemma {:induction false} NamesCounted(ms: seq<Module>, s: set<string>)
    requires UniqueNames(ms) && forall i :: 0 <= i < |ms| ==> ms[i].name in s
    ensures |ms| <= |s|
    decreases |ms|
  {
    if ms != [] {
      var last := |ms| - 1;
      NamesCounted(ms[..last], s - {ms[last].name});
    }
  }

  /** Marking a module that is not in the table. */
  lemma MarkedSound(world: World, s: set<string>, ms: seq<Module>, name: string)
    requires Sound(world, s, ms) && name in s && IndexOf(ms, name) == |ms|
    ensures Sound(world, s, Marked(ms, name)) && |ms| < |s|
  {
    var marked := Marked(ms, name);
    assert marked == ms + [Module(name, Loading)];
    NamesCounted(marked, s);
    forall i, m | 0 <= i < |marked| && marked[i].status == Loaded && m in world.imports(marked[i].name)
      ensures Has(marked, m, Loaded)
    {
      assert Has(ms, m, Loaded);
      var j :| 0 <= j < |ms| && ms[j].name == m && ms[j].status == Loaded;
      assert marked[j] == ms[j];
    }
  }

  /** A module whose imports are loaded becomes a loaded one. */
  lemma LoadedSound(world: World, s: set<string>, ms: seq<Module>, i: nat)
    requires Sound(world, s, ms) && i < |ms| && ms[i].status == Loading
    requires forall m :: m in world.imports(ms[i].name) ==> Has(ms, m, Loaded)
    ensures var after := ms[i := Module(ms[i].name, Loaded)]; Sound(world, s, after) && Has(after, ms[i].name, Loaded)
  {
    var after := ms[i := Module(ms[i].name, Loaded)];
    assert after[i].name == ms[i].name;
    forall j, m | 0 <= j < |after| && after[j].status == Loaded && m in world.imports(after[j].name)
      ensures Has(after, m, Loaded)
    {
      assert Has(ms, m, Loaded);
      var l :| 0 <= l < |ms| && ms[l].name == m && ms[l].status == Loaded;
      assert after[l] == ms[l];
    }
  }

  /** In a healthy world of at most 64 names an import succeeds, unless it closes a cycle. */
  lemma {:induction false} LoadsOne(world: World, s: set<string>, rank: string -> nat, ms: seq<Module>, name: string)
    requires Healthy(world, s, rank) && |s| <= 64 && name in s && |ms| <= 64
    requires Sound(world, s, ms) && LoadingFrom(ms, rank, rank(name) + 1)
    ensures var (ok, after) := ImportOf(world, ms, name); ok && Sound(world, s, after) && Has(after, name, Loaded)
    decreases rank(name), 1, 0
  {
    hide ImportOf, ImportsOf, LoadOf, Healthy;
    var i := IndexOf(ms, name);
    ImportIs(world, ms, name);
    if i < |ms| {
      assert ms[i].status == Loaded;
    } else {
      MarkedSound(world, s, ms, name);
      var marked, imports := Marked(ms, name), world.imports(name);
      assert marked == ms + [Module(name, Loading)];
      HealthyAt(world, s, rank, name);
      LoadIs(world, ms, name);
      LoadsAll(world, s, rank, rank(name), marked, imports, 0);
      assert imports[0..] == imports;
      var (results, after) := ImportsOf(world, marked, imports);
      assert results == AllTrue(|imports|);
      LoadedSound(world, s, after, i);
    }
  }

  lemma HealthyAt(world: World, s: set<string>, rank: string -> nat, n: string)
    requires Healthy(world, s, rank) && n in s
    ensures world.packaged(n) && world.resolves(n) && world.readable(n)
    ensures world.succeeds(n, AllTrue(|world.imports(n)|))
    ensures forall m :: m in world.imports(n) ==> m in s && rank(m) < rank(n)
  {
  }

  /** And so do all imports of a source, from the `i`th on. */
  lemma {:induction false} LoadsAll(world: World, s: set<string>, rank: string -> nat, bound: nat, ms: seq<Module>,
                                    names: seq<string>, i: nat)
    requires Healthy(world, s, rank) && |s| <= 64 && |ms| <= 64 && i <= |names|
    requires Sound(world, s, ms) && LoadingFrom(ms, rank, bound)
    requires forall m :: m in names ==> m in s && rank(m) < bound
    requires forall j :: 0 <= j < i ==> Has(ms, names[j], Loaded)
    ensures var (results, after) := ImportsOf(world, ms, names[i..]);
      && results == AllTrue(|names| - i) && Sound(world, s, after)
      && forall m :: m in names ==> Has(after, m, Loaded)
    decreases bound, 0, |names| - i
  {
    hide ImportOf, ImportsOf, Healthy, Sound, Has;
    if i == |names| {
      NoImports(world, ms, names);
    } else {
      ImportsStep(world, ms, names, i);
      assert names[i] in names;
      HealthyAt(world, s, rank, names[i]);
      LoadsOne(world, s, rank, ms, names[i]);
      var ms1 := ImportOf(world, ms, names[i]).1;
      AllStay(ms, ms1, names, i);
      StillLoadingFrom(ms, ms1, rank, bound);
      LoadsAll(world, s, rank, bound, ms1, names, i + 1);
    }
  }

  lemma AllStay(before: seq<Module>, after: seq<Module>, names: seq<string>, n: nat)
    requires Settled(before, after) && n <= |names| && forall j :: 0 <= j < n ==> Has(before, names[j], Loaded)
    ensures forall j :: 0 <= j < n ==> Has(after, names[j], Loaded)
  {
    StaysLoaded(before, after, names, n, AllTrue(n));
  }

  lemma StillLoadingFrom(before: seq<Module>, after: seq<Module>, rank: string -> nat, bound: nat)
    requires Settled(before, after) && LoadingFrom(before, rank, bound)
    ensures LoadingFrom(after, rank, bound)
  {
  }

  /** A chain of imports. */
  predicate IsChain(world: World, path: seq<string>) {
    path != [] && forall i :: 0 <= i < |path| - 1 ==> path[i + 1] in world.imports(path[i])
  }

  lemma {:induction false} ChainLoaded(world: World, s: set<string>, ms: seq<Module>, path: seq<string>)
    requires Sound(world, s, ms) && IsChain(world, path) && Has(ms, path[0], Loaded)
    ensures Has(ms, path[|path| - 1], Loaded)
    decreases |path|
  {
    if |path| > 1 {
      assert path[1] in world.imports(path[0]);
      ChainLoaded(world, s, ms, path[1..]);
    }
  }

  /** In a healthy world of at most 64 names, importing into an empty table loads everything reachable. */
  lemma HealthyWorldLoads(world: World, s: set<string>, rank: string -> nat, name: string)
    requires Healthy(world, s, rank) && |s| <= 64 && name in s
    ensures var (ok, after) := ImportOf(world, [], name);
      ok && forall path :: IsChain(world, path) && path[0] == name ==> Has(after, path[|path| - 1], Loaded)
  {
    hide Healthy, ImportOf;
    LoadsOne(world, s, rank, [], name);
    var after := ImportOf(world, [], name).1;
    forall path | IsChain(world, path) && path[0] == name
      ensures Has(after, path[|path| - 1], Loaded)
    {
      ChainLoaded(world, s, after, path);
    }
  }
}
