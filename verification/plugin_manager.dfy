/** `PluginManager`: discovery of plugin modules, loading of one plugin
    instance per module into a name-keyed registry, and the three views the
    agent loop and the front end read from the registry: the function
    catalog, the name-to-invoker mapping and the widget map.

    Reflection (`importlib`, `inspect.getmembers`, `issubclass`) is replaced
    by data: each candidate module comes with the outcome of importing it and
    its members in `getmembers` order (sorted by name), each member saying
    whether it is a plugin class and what its constructor does. */
module PluginManager {
  import opened Wrappers
  import opened Strings
  import opened OrderedMap
  import opened PluginContract

  /** `self.plugins`: plugin name to instance, in insertion order. */
  type Registry = OMap<string, Plugin>

  /* ----- Discovery ----- */

  /** A directory entry that names a plugin module. */
  predicate IsPluginFile(filename: string) {
    EndsWith(filename, ".py") && !StartsWith(filename, "__")
  }

  /** The module name: the file name without its `.py` suffix. */
  function ModuleName(filename: string): (r: string)
    requires EndsWith(filename, ".py")
    ensures r + ".py" == filename
  {
    filename[..|filename| - 3]
  }

  /** Which directory entries are plugin modules, and under what name. */
  lemma PluginFileExamples()
    ensures IsPluginFile("translation.py") && ModuleName("translation.py") == "translation"
    ensures !IsPluginFile("__init__.py") && !IsPluginFile("__pycache__")
    ensures !IsPluginFile("notes.txt") && !IsPluginFile("translation.pyc")
  {
    assert "translation.py"[11..] == ".py" && "translation.py"[..2][0] == 't';
    assert "translation.py"[..11] + ".py" == "translation.py";
    assert "__init__.py"[..2] == "__";
    assert "__pycache__"[..2] == "__";
    assert "notes.txt"[6..] != ".py";
    assert "translation.pyc"[12..] != ".py";
  }

  /** `discover_plugins` over the directory listing, in listing order. */
  function DiscoverPlugins(listing: seq<string>): (r: seq<string>)
    ensures |r| <= |listing|
    decreases |listing|
  {
    if |listing| == 0 then []
    else
      var pre := listing[..|listing| - 1];
      var f := listing[|listing| - 1];
      DiscoverPlugins(pre) + if IsPluginFile(f) then [ModuleName(f)] else []
  }

  /** A module is discovered exactly when some listed plugin file is named
      after it. */
  lemma {:induction false} DiscoverMembers(listing: seq<string>)
    ensures forall x :: x in DiscoverPlugins(listing) <==>
      exists f :: f in listing && IsPluginFile(f) && x == ModuleName(f)
    decreases |listing|
  {
    if |listing| > 0 {
      var pre, f := listing[..|listing| - 1], listing[|listing| - 1];
      DiscoverMembers(pre);
      assert listing == pre + [f];
      assert forall g :: g in listing <==> g in pre || g == f;
    }
  }

  /** Discovery keeps listing order: the modules of a split listing are the
      modules of each part, concatenated. */
  lemma {:induction false} DiscoverAppend(a: seq<string>, b: seq<string>)
    ensures DiscoverPlugins(a + b) == DiscoverPlugins(a) + DiscoverPlugins(b)
    decreases |b|
  {
    if |b| == 0 {
      assert a + b == a;
    } else {
      var b', f := b[..|b| - 1], b[|b| - 1];
      DiscoverAppend(a, b');
      assert a + b == (a + b') + [f] && b == b' + [f];
      DiscoverSnoc(a + b', f);
      DiscoverSnoc(b', f);
      AppendAssoc(DiscoverPlugins(a), DiscoverPlugins(b'), if IsPluginFile(f) then [ModuleName(f)] else []);
    }
  }

  /** One more entry at the end of the listing adds at most its module. */
  lemma DiscoverSnoc(pre: seq<string>, f: string)
    ensures DiscoverPlugins(pre + [f]) == DiscoverPlugins(pre) + if IsPluginFile(f) then [ModuleName(f)] else []
  {
    assert (pre + [f])[..|pre + [f]| - 1] == pre;
  }

  lemma AppendAssoc<T>(x: seq<T>, y: seq<T>, z: seq<T>)
    ensures (x + y) + z == x + (y + z)
  {
  }

  /* ----- Loading ----- */

  /** What calling a plugin class does. */
  datatype Construction = Constructed(instance: Plugin) | ConstructorRaises(reason: string)

  /** What the loader's test makes of a module member: not a class, a class
      unrelated to `PluginBase`, `PluginBase` itself (imported into every
      plugin module), or a proper subclass of it. */
  datatype MemberKind = NotAClass | UnrelatedClass | PluginBaseItself | PluginSubclass(construct: Construction)

  datatype Member = Member(name: string, kind: MemberKind)

  datatype ImportOutcome = ImportRaises(reason: string) | Imported(members: seq<Member>)

  /** A discovered module and what importing it yields. */
  datatype Candidate = Candidate(moduleName: string, outcome: ImportOutcome)

  /** Per-candidate result: one instance, no plugin class at all (nothing is
      registered and nothing is reported), or a failure that is reported and
      skipped. */
  datatype LoadOutcome = Loaded(plugin: Plugin) | NoPluginClass | LoadFailed(reason: string)

  /** `inspect.isclass(obj) and issubclass(obj, PluginBase) and obj != PluginBase` */
  predicate Conforms(m: Member) {
    m.kind.PluginSubclass?
  }

  /** Position of the first conforming member. */
  function FirstConforming(ms: seq<Member>): (r: Option<nat>)
    ensures r.None? <==> forall i :: 0 <= i < |ms| ==> !Conforms(ms[i])
    ensures r.Some? ==> r.value < |ms| && Conforms(ms[r.value])
    ensures r.Some? ==> forall j :: 0 <= j < r.value ==> !Conforms(ms[j])
    decreases |ms|
  {
    if |ms| == 0 then None
    else if Conforms(ms[0]) then Some(0)
    else
      var rest := FirstConforming(ms[1..]);
      assert forall i :: 1 <= i < |ms| ==> ms[i] == ms[1..][i - 1];
      if rest.None? then None else Some(rest.value + 1)
  }

  /** One iteration of the `load_plugins` loop: import the module, take the
      first conforming member and call it; an exception anywhere fails the
      candidate (the `break` is never reached, so no later member is tried). */
  function LoadOne(c: Candidate): (r: LoadOutcome)
    ensures c.outcome.ImportRaises? ==> r.LoadFailed?
    ensures r.NoPluginClass? <==>
      c.outcome.Imported? && forall i :: 0 <= i < |c.outcome.members| ==> !Conforms(c.outcome.members[i])
    ensures r.Loaded? ==> c.outcome.Imported?
    ensures r.Loaded? ==>
      exists i :: 0 <= i < |c.outcome.members| &&
        c.outcome.members[i].kind == PluginSubclass(Constructed(r.plugin)) &&
        (forall j :: 0 <= j < i ==> !Conforms(c.outcome.members[j]))
    ensures r.LoadFailed? && c.outcome.Imported? ==>
      exists i :: 0 <= i < |c.outcome.members| &&
        c.outcome.members[i].kind.PluginSubclass? &&
        c.outcome.members[i].kind.construct.ConstructorRaises? &&
        (forall j :: 0 <= j < i ==> !Conforms(c.outcome.members[j]))
  {
    match c.outcome
    case ImportRaises(reason) => LoadFailed(reason)
    case Imported(ms) =>
      match FirstConforming(ms)
      case None => NoPluginClass
      case Some(i) =>
        match ms[i].kind.construct
        case Constructed(p) => Loaded(p)
        case ConstructorRaises(reason) => LoadFailed(reason)
  }

  /** Members after the first conforming one are never looked at. */
  lemma OnlyFirstConformingMatters(name: string, ms: seq<Member>, later: seq<Member>)
    requires exists i :: 0 <= i < |ms| && Conforms(ms[i])
    ensures LoadOne(Candidate(name, Imported(ms + later))) == LoadOne(Candidate(name, Imported(ms)))
  {
    var i := FirstConforming(ms).value;
    assert forall j :: 0 <= j <= i ==> (ms + later)[j] == ms[j];
  }

  /** `self.plugins[instance.get_name()] = instance` for a loaded candidate. */
  function Register(reg: Registry, o: LoadOutcome): (r: Registry)
    ensures !o.Loaded? ==> r == reg
    ensures o.Loaded? ==> Get(r, o.plugin.name) == Some(o.plugin)
    ensures o.Loaded? ==> Keys(r) == if o.plugin.name in Keys(reg) then Keys(reg) else Keys(reg) + [o.plugin.name]
  {
    if o.Loaded? then Put(reg, o.plugin.name, o.plugin) else reg
  }

  /** Every registry key is the name its plugin reports. */
  predicate WellKeyed(reg: Registry) {
    forall i :: 0 <= i < |reg| ==> reg[i].0 == reg[i].1.name
  }

  /** `load_plugins` over the discovered candidates, starting from the
      current registry. */
  function LoadPlugins(reg: Registry, cands: seq<Candidate>): (r: Registry)
    ensures |r| <= |reg| + |cands|
    ensures Keys(reg) <= Keys(r)
    ensures UniqueKeys(reg) ==> UniqueKeys(r)
    ensures WellKeyed(reg) ==> WellKeyed(r)
    decreases |cands|
  {
    if |cands| == 0 then reg
    else
      var pre := LoadPlugins(reg, cands[..|cands| - 1]);
      var o := LoadOne(cands[|cands| - 1]);
      if o.Loaded? then
        PutPairs(pre, o.plugin.name, o.plugin);
        Register(pre, o)
      else pre
  }

  /** True when candidate `i` loads a plugin reporting the name `n`. */
  predicate LoadsName(cands: seq<Candidate>, i: int, n: string)
    requires 0 <= i < |cands|
  {
    LoadOne(cands[i]).Loaded? && LoadOne(cands[i]).plugin.name == n
  }

  /** Loading split at any point composes: each candidate is handled after
      the ones before it, independently of the ones after it. */
  lemma {:induction false} LoadAppend(reg: Registry, a: seq<Candidate>, b: seq<Candidate>)
    ensures LoadPlugins(reg, a + b) == LoadPlugins(LoadPlugins(reg, a), b)
    decreases |b|
  {
    if |b| == 0 {
      assert a + b == a;
    } else {
      var b' := b[..|b| - 1];
      LoadAppend(reg, a, b');
      assert (a + b)[..|a + b| - 1] == a + b';
      assert (a + b)[|a + b| - 1] == b[|b| - 1];
    }
  }

  /** Failure isolation: a candidate that fails to import, has no plugin
      class or whose constructor raises changes nothing, and the candidates
      after it are processed as if it were absent. */
  lemma SkipFailed(reg: Registry, a: seq<Candidate>, c: Candidate, b: seq<Candidate>)
    requires !LoadOne(c).Loaded?
    ensures LoadPlugins(reg, a + [c] + b) == LoadPlugins(reg, a + b)
  {
    LoadAppend(reg, a + [c], b);
    LoadAppend(reg, a, [c]);
    assert LoadPlugins(LoadPlugins(reg, a), [c]) == LoadPlugins(reg, a) by {
      assert [c][..0] == [];
    }
    LoadAppend(reg, a, b);
  }

  /** Last-write-wins: the registry entry for a name is the instance of the
      last candidate that loaded a plugin of that name. */
  lemma {:induction false} LoadLastWins(reg: Registry, cands: seq<Candidate>, n: string, i: int)
    requires 0 <= i < |cands| && LoadsName(cands, i, n)
    requires forall j :: i < j < |cands| ==> !LoadsName(cands, j, n)
    ensures Get(LoadPlugins(reg, cands), n) == Some(LoadOne(cands[i]).plugin)
    decreases |cands|
  {
    var pre := cands[..|cands| - 1];
    var o := LoadOne(cands[|cands| - 1]);
    if i < |cands| - 1 {
      assert !LoadsName(cands, |cands| - 1, n);
      assert LoadsName(pre, i, n) by { assert pre[i] == cands[i]; }
      assert forall j :: i < j < |pre| ==> !LoadsName(pre, j, n) by {
        forall j | i < j < |pre| ensures !LoadsName(pre, j, n) {
          assert pre[j] == cands[j];
          assert !LoadsName(cands, j, n);
        }
      }
      LoadLastWins(reg, pre, n, i);
      if o.Loaded? {
        PutGetOther(LoadPlugins(reg, pre), o.plugin.name, o.plugin, n);
      }
    }
  }

  /** A name no candidate loads keeps whatever the registry held for it. */
  lemma {:induction false} LoadUntouched(reg: Registry, cands: seq<Candidate>, n: string)
    requires forall j :: 0 <= j < |cands| ==> !LoadsName(cands, j, n)
    ensures Get(LoadPlugins(reg, cands), n) == Get(reg, n)
    decreases |cands|
  {
    if |cands| > 0 {
      var pre := cands[..|cands| - 1];
      var o := LoadOne(cands[|cands| - 1]);
      assert forall j :: 0 <= j < |pre| ==> !LoadsName(pre, j, n) by {
        forall j | 0 <= j < |pre| ensures !LoadsName(pre, j, n) {
          assert pre[j] == cands[j];
          assert !LoadsName(cands, j, n);
        }
      }
      LoadUntouched(reg, pre, n);
      assert !LoadsName(cands, |cands| - 1, n);
      if o.Loaded? {
        PutGetOther(LoadPlugins(reg, pre), o.plugin.name, o.plugin, n);
      }
    }
  }

  /** The names a run of the loader registers. */
  function LoadedNames(cands: seq<Candidate>): set<string> {
    set i | 0 <= i < |cands| && LoadOne(cands[i]).Loaded? :: LoadOne(cands[i]).plugin.name
  }

  /** From an empty registry, a name is registered exactly when some
      candidate loaded a plugin of that name, and the registry holds one
      entry per distinct loaded name: with N loadable candidates of
      distinct names and any number of failing ones, it holds N plugins. */
  lemma LoadFromEmpty(cands: seq<Candidate>)
    ensures forall n :: n in Keys(LoadPlugins([], cands)) <==> n in LoadedNames(cands)
    ensures |LoadPlugins([], cands)| == |LoadedNames(cands)|
    ensures WellKeyed(LoadPlugins([], cands))
  {
    var r := LoadPlugins([], cands);
    forall n ensures n in Keys(r) <==> n in LoadedNames(cands) {
      if n in LoadedNames(cands) {
        var i0 :| 0 <= i0 < |cands| && LoadOne(cands[i0]).Loaded? && LoadOne(cands[i0]).plugin.name == n;
        var i := LastLoading(cands, n, i0);
        LoadLastWins([], cands, n, i);
      } else {
        LoadUntouched([], cands, n);
      }
    }
    DistinctCard(Keys(r));
    assert (set k | k in Keys(r)) == LoadedNames(cands);
  }

  /** The last candidate at or after `i0` that loads the name `n`. */
  lemma LastLoading(cands: seq<Candidate>, n: string, i0: int) returns (i: int)
    requires 0 <= i0 < |cands| && LoadsName(cands, i0, n)
    ensures i0 <= i < |cands| && LoadsName(cands, i, n)
    ensures forall j :: i < j < |cands| ==> !LoadsName(cands, j, n)
    decreases |cands| - i0
  {
    if exists j :: i0 < j < |cands| && LoadsName(cands, j, n) {
      var j :| i0 < j < |cands| && LoadsName(cands, j, n);
      i := LastLoading(cands, n, j);
    } else {
      i := i0;
    }
  }

  /** The registry a run of candidates would build if each one loaded a
      plugin of a name of its own: one entry per candidate, in order. */
  function Registered(cands: seq<Candidate>): (r: Registry)
    requires forall i :: 0 <= i < |cands| ==> LoadOne(cands[i]).Loaded?
    ensures |r| == |cands|
    ensures forall i :: 0 <= i < |cands| ==> r[i] == (LoadOne(cands[i]).plugin.name, LoadOne(cands[i]).plugin)
  {
    seq(|cands|, i requires 0 <= i < |cands| => (LoadOne(cands[i]).plugin.name, LoadOne(cands[i]).plugin))
  }

  /** When every candidate loads and no two report the same name, loading
      into an empty registry keeps every plugin, in candidate order. */
  lemma {:induction false} LoadDistinctNames(cands: seq<Candidate>)
    requires forall i :: 0 <= i < |cands| ==> LoadOne(cands[i]).Loaded?
    requires forall i, j :: 0 <= i < j < |cands| ==> LoadOne(cands[i]).plugin.name != LoadOne(cands[j]).plugin.name
    ensures LoadPlugins([], cands) == Registered(cands)
    decreases |cands|
  {
    if |cands| > 0 {
      var pre := cands[..|cands| - 1];
      assert forall i :: 0 <= i < |pre| ==> pre[i] == cands[i];
      LoadDistinctNames(pre);
      LoadDistinctStep(cands);
    }
  }

  lemma LoadDistinctStep(cands: seq<Candidate>)
    requires |cands| > 0
    requires forall i :: 0 <= i < |cands| ==> LoadOne(cands[i]).Loaded?
    requires forall i, j :: 0 <= i < j < |cands| ==> LoadOne(cands[i]).plugin.name != LoadOne(cands[j]).plugin.name
    requires LoadPlugins([], cands[..|cands| - 1]) == Registered(cands[..|cands| - 1])
    ensures LoadPlugins([], cands) == Registered(cands)
  {
    var pre, o := cands[..|cands| - 1], LoadOne(cands[|cands| - 1]);
    LastNameFresh(cands);
    assert LoadPlugins([], cands) == Register(Registered(pre), o);
    PutNew(Registered(pre), o.plugin.name, o.plugin);
    RegisteredSnoc(cands);
  }

  lemma LastNameFresh(cands: seq<Candidate>)
    requires |cands| > 0
    requires forall i :: 0 <= i < |cands| ==> LoadOne(cands[i]).Loaded?
    requires forall i, j :: 0 <= i < j < |cands| ==> LoadOne(cands[i]).plugin.name != LoadOne(cands[j]).plugin.name
    ensures LoadOne(cands[|cands| - 1]).plugin.name !in Keys(Registered(cands[..|cands| - 1]))
  {
    var pre := cands[..|cands| - 1];
    var reg := Registered(pre);
    forall i | 0 <= i < |reg| ensures Keys(reg)[i] != LoadOne(cands[|cands| - 1]).plugin.name {
      assert Keys(reg)[i] == LoadOne(cands[i]).plugin.name;
    }
  }

  lemma RegisteredSnoc(cands: seq<Candidate>)
    requires |cands| > 0
    requires forall i :: 0 <= i < |cands| ==> LoadOne(cands[i]).Loaded?
    ensures var pre, o := cands[..|cands| - 1], LoadOne(cands[|cands| - 1]);
      Registered(cands) == Registered(pre) + [(o.plugin.name, o.plugin)]
  {
    var pre, o := cands[..|cands| - 1], LoadOne(cands[|cands| - 1]);
    var a, b := Registered(cands), Registered(pre) + [(o.plugin.name, o.plugin)];
    forall i | 0 <= i < |cands| ensures a[i] == b[i] {
      if i < |pre| {
        assert pre[i] == cands[i];
        assert b[i] == Registered(pre)[i];
      }
    }
  }

  /* ----- Discovery and loading together ----- */

  /** The candidates `load_plugins` works through: the discovered modules in
      discovery order, each paired with what importing `plugins.<module>`
      yields. */
  function CandidatesFor(modules: seq<string>, importOf: string -> ImportOutcome): (r: seq<Candidate>)
    ensures |r| == |modules|
    ensures forall i :: 0 <= i < |r| ==> r[i].moduleName == modules[i] && r[i].outcome == importOf(r[i].moduleName)
  {
    seq(|modules|, i requires 0 <= i < |modules| => Candidate(modules[i], importOf(modules[i])))
  }

  /** True when the directory entry `f` is a plugin file whose module, once
      imported, loads a plugin reporting the name `n`. */
  predicate FileLoadsName(f: string, importOf: string -> ImportOutcome, n: string) {
    && IsPluginFile(f)
    && var c := Candidate(ModuleName(f), importOf(ModuleName(f)));
    && LoadOne(c).Loaded? && LoadOne(c).plugin.name == n
  }

  /** `load_plugins` as a whole: discover the modules of the directory
      listing, import each, and load them in order into the registry. */
  function LoadDiscovered(reg: Registry, listing: seq<string>, importOf: string -> ImportOutcome): (r: Registry)
    ensures |r| <= |reg| + |DiscoverPlugins(listing)| <= |reg| + |listing|
    ensures Keys(reg) <= Keys(r)
    ensures UniqueKeys(reg) ==> UniqueKeys(r)
    ensures WellKeyed(reg) ==> WellKeyed(r)
  {
    LoadPlugins(reg, CandidatesFor(DiscoverPlugins(listing), importOf))
  }

  /** The names after loading are the names before, plus the name of every
      plugin some plugin file of the listing loads, and nothing else. */
  lemma LoadDiscoveredNames(reg: Registry, listing: seq<string>, importOf: string -> ImportOutcome, n: string)
    ensures n in Keys(LoadDiscovered(reg, listing, importOf)) <==>
      n in Keys(reg) || exists f :: f in listing && FileLoadsName(f, importOf, n)
  {
    var d := DiscoverPlugins(listing);
    var cands := CandidatesFor(d, importOf);
    var r := LoadPlugins(reg, cands);
    DiscoverMembers(listing);
    if exists i :: 0 <= i < |cands| && LoadsName(cands, i, n) {
      var i0 :| 0 <= i0 < |cands| && LoadsName(cands, i0, n);
      var i := LastLoading(cands, n, i0);
      LoadLastWins(reg, cands, n, i);
      assert n in Keys(r);
      assert d[i0] in d;
      var f :| f in listing && IsPluginFile(f) && d[i0] == ModuleName(f);
      assert FileLoadsName(f, importOf, n);
    } else {
      LoadUntouched(reg, cands, n);
      if exists f :: f in listing && FileLoadsName(f, importOf, n) {
        var f :| f in listing && FileLoadsName(f, importOf, n);
        assert ModuleName(f) in d;
        var i :| 0 <= i < |d| && d[i] == ModuleName(f);
        assert LoadsName(cands, i, n);
        assert false;
      }
    }
  }

  /** An entry of the listing that is not a plugin file (`__init__.py`,
      `README.md`, a package directory) has no effect on loading. */
  lemma LoadDiscoveredSkipsNonPluginFiles(reg: Registry, a: seq<string>, f: string, b: seq<string>,
                                          importOf: string -> ImportOutcome)
    requires !IsPluginFile(f)
    ensures LoadDiscovered(reg, a + [f] + b, importOf) == LoadDiscovered(reg, a + b, importOf)
  {
    DiscoverAppend(a + [f], b);
    DiscoverAppend(a, [f]);
    DiscoverAppend(a, b);
    assert DiscoverPlugins([f]) == [] by { assert [f][..0] == []; }
    assert DiscoverPlugins(a + [f] + b) == DiscoverPlugins(a + b);
  }

  /** Loading a split listing is loading the first part, then the second. */
  lemma LoadDiscoveredAppend(reg: Registry, a: seq<string>, b: seq<string>, importOf: string -> ImportOutcome)
    ensures LoadDiscovered(reg, a + b, importOf) == LoadDiscovered(LoadDiscovered(reg, a, importOf), b, importOf)
  {
    DiscoverAppend(a, b);
    var da, db := DiscoverPlugins(a), DiscoverPlugins(b);
    CandidatesForAppend(da, db, importOf);
    LoadAppend(reg, CandidatesFor(da, importOf), CandidatesFor(db, importOf));
  }

  lemma CandidatesForAppend(da: seq<string>, db: seq<string>, importOf: string -> ImportOutcome)
    ensures CandidatesFor(da + db, importOf) == CandidatesFor(da, importOf) + CandidatesFor(db, importOf)
  {
    var l, ca, cb := CandidatesFor(da + db, importOf), CandidatesFor(da, importOf), CandidatesFor(db, importOf);
    assert |l| == |ca + cb|;
    forall i | 0 <= i < |l| ensures l[i] == (ca + cb)[i] {
      if i < |da| {
        assert (da + db)[i] == da[i];
      } else {
        assert (da + db)[i] == db[i - |da|];
      }
    }
  }

  /* ----- Catalog ----- */

  /** `get_all_functions`: every plugin's declarations, concatenated in
      registry order. */
  function GetAllFunctions(reg: Registry): (r: seq<FunctionDecl>)
    ensures forall f :: f in r <==> exists i :: 0 <= i < |reg| && f in reg[i].1.functions
    decreases |reg|
  {
    if |reg| == 0 then []
    else
      var pre := reg[..|reg| - 1];
      assert forall i :: 0 <= i < |pre| ==> pre[i] == reg[i];
      GetAllFunctions(pre) + reg[|reg| - 1].1.functions
  }

  /** Number of declarations named `n` in a list of declarations. */
  function CountNamed(fs: seq<FunctionDecl>, n: string): nat
    decreases |fs|
  {
    if |fs| == 0 then 0
    else CountNamed(fs[..|fs| - 1], n) + if fs[|fs| - 1].name == n then 1 else 0
  }

  /** Sum over the registry of the number of declarations, and of those named `n`. */
  function TotalDeclared(reg: Registry): nat
    decreases |reg|
  {
    if |reg| == 0 then 0 else TotalDeclared(reg[..|reg| - 1]) + |reg[|reg| - 1].1.functions|
  }

  function TotalDeclaredNamed(reg: Registry, n: string): nat
    decreases |reg|
  {
    if |reg| == 0 then 0
    else TotalDeclaredNamed(reg[..|reg| - 1], n) + CountNamed(reg[|reg| - 1].1.functions, n)
  }

  lemma {:induction false} CountNamedAppend(a: seq<FunctionDecl>, b: seq<FunctionDecl>, n: string)
    ensures CountNamed(a + b, n) == CountNamed(a, n) + CountNamed(b, n)
    decreases |b|
  {
    if |b| == 0 {
      assert a + b == a;
    } else {
      var b' := b[..|b| - 1];
      CountNamedAppend(a, b', n);
      assert (a + b)[..|a + b| - 1] == a + b';
      assert (a + b)[|a + b| - 1] == b[|b| - 1];
    }
  }

  /** The catalog's length is the sum of the plugins' declaration counts,
      and a name declared by several plugins appears once per declaration:
      nothing is deduplicated. */
  lemma {:induction false} CatalogCounts(reg: Registry, n: string)
    ensures |GetAllFunctions(reg)| == TotalDeclared(reg)
    ensures CountNamed(GetAllFunctions(reg), n) == TotalDeclaredNamed(reg, n)
    decreases |reg|
  {
    if |reg| > 0 {
      var pre := reg[..|reg| - 1];
      CatalogCounts(pre, n);
      CountNamedAppend(GetAllFunctions(pre), reg[|reg| - 1].1.functions, n);
    }
  }

  /** The catalog of a split registry is the catalogs of the parts,
      concatenated: registry order, each plugin's own order kept. */
  lemma {:induction false} CatalogAppend(a: Registry, b: Registry)
    ensures GetAllFunctions(a + b) == GetAllFunctions(a) + GetAllFunctions(b)
    decreases |b|
  {
    if |b| == 0 {
      assert a + b == a;
    } else {
      var b' := b[..|b| - 1];
      CatalogAppend(a, b');
      assert (a + b)[..|a + b| - 1] == a + b';
      assert (a + b)[|a + b| - 1] == b[|b| - 1];
    }
  }

  /* ----- Function mapping ----- */

  /** A mapping entry: the plugin and the function name bound when the
      entry was made (the lambda's default arguments). */
  datatype Invoker = Invoker(plugin: Plugin, functionName: string)

  /** The assignments `mapping[name] = <invoker>` one plugin contributes. */
  function PluginBindings(p: Plugin): (r: seq<(string, Invoker)>)
    ensures Keys(r) == FunctionNames(p.functions)
    ensures forall i :: 0 <= i < |r| ==> r[i].1 == Invoker(p, r[i].0)
  {
    seq(|p.functions|, i requires 0 <= i < |p.functions| => (p.functions[i].name, Invoker(p, p.functions[i].name)))
  }

  /** All assignments of the nested loop, in execution order. */
  function Bindings(reg: Registry): (r: seq<(string, Invoker)>)
    ensures |r| == TotalDeclared(reg)
    ensures Keys(r) == FunctionNames(GetAllFunctions(reg))
    decreases |reg|
  {
    if |reg| == 0 then []
    else
      var pre := reg[..|reg| - 1];
      var p := reg[|reg| - 1].1;
      var r := Bindings(pre) + PluginBindings(p);
      assert Keys(r) == Keys(Bindings(pre)) + Keys(PluginBindings(p));
      assert FunctionNames(GetAllFunctions(reg)) ==
        FunctionNames(GetAllFunctions(pre)) + FunctionNames(p.functions);
      r
  }

  predicate SelfBound(m: OMap<string, Invoker>) {
    forall i :: 0 <= i < |m| ==> m[i].1.functionName == m[i].0
  }

  /** `get_function_mapping`: one entry per declared name; each entry calls
      its own plugin with its own name. */
  function GetFunctionMapping(reg: Registry): (r: OMap<string, Invoker>)
    ensures UniqueKeys(r)
    ensures SelfBound(r)
  {
    PutAllUnique([], Bindings(reg));
    PutAllPairs([], Bindings(reg));
    BindingsSelfBound(reg);
    PutAll([], Bindings(reg))
  }

  lemma {:induction false} BindingsSelfBound(reg: Registry)
    ensures forall i :: 0 <= i < |Bindings(reg)| ==> Bindings(reg)[i].1.functionName == Bindings(reg)[i].0
    decreases |reg|
  {
    if |reg| > 0 {
      BindingsSelfBound(reg[..|reg| - 1]);
    }
  }

  /** Every declared name has an entry, and nothing else does. */
  lemma MappingKeys(reg: Registry, n: string)
    ensures n in Keys(GetFunctionMapping(reg)) <==> n in FunctionNames(GetAllFunctions(reg))
  {
    PutAllHasKey([], Bindings(reg), n);
  }

  lemma {:induction false} LastValueAppend<K, V>(a: seq<(K, V)>, b: seq<(K, V)>, k: K)
    ensures LastValue(a + b, k) == if LastValue(b, k).Some? then LastValue(b, k) else LastValue(a, k)
    decreases |b|
  {
    if |b| == 0 {
      assert a + b == a;
    } else {
      var b' := b[..|b| - 1];
      LastValueAppend(a, b', k);
      assert (a + b)[..|a + b| - 1] == a + b';
      assert (a + b)[|a + b| - 1] == b[|b| - 1];
    }
  }

  lemma PluginBindingsLast(p: Plugin, n: string)
    ensures LastValue(PluginBindings(p), n) == if Declares(p, n) then Some(Invoker(p, n)) else None
  {
    var bs := PluginBindings(p);
    assert Keys(bs) == FunctionNames(p.functions);
    var r := LastValue(bs, n);
    if r.Some? {
      var i :| 0 <= i < |bs| && bs[i] == (n, r.value);
    }
  }

  /** The entry for a name declared by several plugins belongs to the last
      of them in registry order, and is bound to that name. */
  lemma {:induction false} MappingLastDeclarer(reg: Registry, n: string, i: int)
    requires 0 <= i < |reg| && Declares(reg[i].1, n)
    requires forall j :: i < j < |reg| ==> !Declares(reg[j].1, n)
    ensures Get(GetFunctionMapping(reg), n) == Some(Invoker(reg[i].1, n))
  {
    PutAllGet([], Bindings(reg), n);
    BindingsLast(reg, n, i);
  }

  lemma {:induction false} BindingsLast(reg: Registry, n: string, i: int)
    requires 0 <= i < |reg| && Declares(reg[i].1, n)
    requires forall j :: i < j < |reg| ==> !Declares(reg[j].1, n)
    ensures LastValue(Bindings(reg), n) == Some(Invoker(reg[i].1, n))
    decreases |reg|
  {
    var pre := reg[..|reg| - 1];
    var p := reg[|reg| - 1].1;
    LastValueAppend(Bindings(pre), PluginBindings(p), n);
    PluginBindingsLast(p, n);
    if i < |reg| - 1 {
      assert pre[i] == reg[i];
      forall j | i < j < |pre| ensures !Declares(pre[j].1, n) {
        assert pre[j] == reg[j];
      }
      BindingsLast(pre, n, i);
    }
  }

  /* ----- Widgets ----- */

  /** `get_widget_info`: plugin name to widget information, for the plugins
      whose widget information is truthy, in registry order. */
  function GetWidgetInfo(reg: Registry): (r: OMap<string, WidgetInfo>)
    ensures UniqueKeys(r)
    decreases |reg|
  {
    if |reg| == 0 then []
    else
      var w := GetWidgetInfo(reg[..|reg| - 1]);
      var p := reg[|reg| - 1].1;
      if WidgetTruthy(p.widget) then Put(w, p.name, p.widget.value) else w
  }

  predicate ShowsWidget(reg: Registry, i: int, n: string)
    requires 0 <= i < |reg|
  {
    reg[i].1.name == n && WidgetTruthy(reg[i].1.widget)
  }

  /** The widget entry for a name is the unchanged widget information of the
      last plugin with that name and a truthy widget. */
  lemma {:induction false} WidgetOfPlugin(reg: Registry, n: string, i: int)
    requires 0 <= i < |reg| && ShowsWidget(reg, i, n)
    requires forall j :: i < j < |reg| ==> !ShowsWidget(reg, j, n)
    ensures Get(GetWidgetInfo(reg), n) == Some(reg[i].1.widget.value)
    decreases |reg|
  {
    var pre := reg[..|reg| - 1];
    var p := reg[|reg| - 1].1;
    if i < |reg| - 1 {
      assert !ShowsWidget(reg, |reg| - 1, n);
      assert pre[i] == reg[i];
      forall j | i < j < |pre| ensures !ShowsWidget(pre, j, n) {
        assert pre[j] == reg[j];
        assert !ShowsWidget(reg, j, n);
      }
      WidgetOfPlugin(pre, n, i);
      if WidgetTruthy(p.widget) {
        PutGetOther(GetWidgetInfo(pre), p.name, p.widget.value, n);
      }
    }
  }

  /** Plugins without widget information get no entry, not even an empty
      one. */
  lemma {:induction false} NoWidgetNoEntry(reg: Registry, n: string)
    requires forall j :: 0 <= j < |reg| ==> !ShowsWidget(reg, j, n)
    ensures n !in Keys(GetWidgetInfo(reg))
    decreases |reg|
  {
    if |reg| > 0 {
      var pre := reg[..|reg| - 1];
      var p := reg[|reg| - 1].1;
      forall j | 0 <= j < |pre| ensures !ShowsWidget(pre, j, n) {
        assert pre[j] == reg[j];
        assert !ShowsWidget(reg, j, n);
      }
      NoWidgetNoEntry(pre, n);
      assert !ShowsWidget(reg, |reg| - 1, n);
      if WidgetTruthy(p.widget) {
        PutGetOther(GetWidgetInfo(pre), p.name, p.widget.value, n);
      }
    }
  }

  /** Number of plugins whose widget information is truthy. */
  function CountWidgets(reg: Registry): nat
    decreases |reg|
  {
    if |reg| == 0 then 0
    else CountWidgets(reg[..|reg| - 1]) + if WidgetTruthy(reg[|reg| - 1].1.widget) then 1 else 0
  }

  predicate UniqueNames(reg: Registry) {
    forall i, j :: 0 <= i < j < |reg| ==> reg[i].1.name != reg[j].1.name
  }

  /** With distinct plugin names (as in a loaded registry), the widget map
      has exactly one entry per plugin with truthy widget information. */
  lemma {:induction false} WidgetCount(reg: Registry)
    requires UniqueNames(reg)
    ensures |GetWidgetInfo(reg)| == CountWidgets(reg)
    decreases |reg|
  {
    if |reg| > 0 {
      var pre := reg[..|reg| - 1];
      var p := reg[|reg| - 1].1;
      WidgetCount(pre);
      if WidgetTruthy(p.widget) {
        forall j | 0 <= j < |pre| ensures !ShowsWidget(pre, j, p.name) {
          assert pre[j] == reg[j];
        }
        NoWidgetNoEntry(pre, p.name);
      }
    }
  }

  /** A registry built by the loader, starting from one whose keys are
      unique and each its plugin's name (the empty one in particular), has
      distinct plugin names. */
  lemma LoadedRegistryUniqueNames(reg: Registry, cands: seq<Candidate>)
    requires UniqueKeys(reg) && WellKeyed(reg)
    ensures UniqueNames(LoadPlugins(reg, cands))
    ensures UniqueNames(LoadPlugins([], cands))
  {
  }
}
