/** The plugin directory loaded as a whole by the `PluginManager`: discovery
    finds its five plugin modules, each import yields its plugin class among
    members that do not conform, and the five plugins end up under their own
    names. The engineering calculators plugin is not part of this model: it
    is a parameter, known only by the name it reports. */
module ShippedPlugins {
  import opened Wrappers
  import opened OrderedMap
  import opened PluginContract
  import opened PluginManager
  import QrCodeGenerator
  import DocumentAnalysis
  import Translation
  import ImageGeneration

  /** The directory entries, in alphabetical order: the package's own
      `__init__.py`, its byte-code cache and one `.py` file per plugin
      module. */
  const Listing: seq<string> := ["__init__.py", "__pycache__"] + SourceFiles(Modules)

  /** The `<name>.py` file of each module, in order. */
  function SourceFiles(modules: seq<string>): (r: seq<string>)
    ensures |r| == |modules|
    ensures forall i :: 0 <= i < |r| ==> r[i] == modules[i] + ".py"
  {
    if |modules| == 0 then [] else [modules[0] + ".py"] + SourceFiles(modules[1..])
  }

  /** A plugin module's members in `getmembers` order, abridged to a typing
      name that is a class (`Any`), one that is not (`Dict`), the plugin
      class, and the imported `PluginBase`; no other member conforms. */
  function PluginModule(className: string, p: Plugin): ImportOutcome {
    Imported([
      Member("Any", UnrelatedClass), Member("Dict", NotAClass),
      Member(className, PluginSubclass(Constructed(p))), Member("PluginBase", PluginBaseItself)])
  }

  /** What `importlib.import_module("plugins.<name>")` yields when every
      library the plugins need is installed, for plugin classes that build
      `da`, `ec`, `ig`, `qr` and `tr`. */
  function ImportWith(da: Plugin, ec: Plugin, ig: Plugin, qr: Plugin, tr: Plugin, moduleName: string): ImportOutcome {
    if moduleName == "document_analysis" then PluginModule("DocumentAnalysisPlugin", da)
    else if moduleName == "engineering_calculators" then PluginModule("EngineeringCalculatorsPlugin", ec)
    else if moduleName == "image_generation" then PluginModule("ImageGenerationPlugin", ig)
    else if moduleName == "qr_code_generator" then PluginModule("QRCodeGeneratorPlugin", qr)
    else if moduleName == "translation" then PluginModule("TranslationPlugin", tr)
    else ImportRaises("No module named 'plugins." + moduleName + "'")
  }

  /** Discovery keeps the five plugin modules, in listing order. */
  lemma ShippedDiscovery()
    ensures DiscoverPlugins(Listing) == Modules
  {
    var a: seq<string> := ["__init__.py", "__pycache__"];
    DiscoverAppend(a, SourceFiles(Modules));
    assert DiscoverPlugins(a) == [] by {
      assert !IsPluginFile("__init__.py") by { assert "__init__.py"[..2] == "__"; }
      assert !IsPluginFile("__pycache__") by { assert "__pycache__"[..2] == "__"; }
      assert a[..1] == ["__init__.py"] && a[..1][..0] == [];
    }
    assert Modules[0][0] == 'd' && Modules[1][0] == 'e' && Modules[2][0] == 'i' && Modules[3][0] == 'q' && Modules[4][0] == 't';
    DiscoverSourceFiles(Modules);
  }

  /** The source files of modules whose names do not start with `_` are
      discovered as exactly those modules. */
  lemma {:induction false} DiscoverSourceFiles(modules: seq<string>)
    requires forall i :: 0 <= i < |modules| ==> |modules[i]| >= 2 && modules[i][0] != '_'
    ensures DiscoverPlugins(SourceFiles(modules)) == modules
  {
    if |modules| > 0 {
      var m, rest := modules[0], SourceFiles(modules[1..]);
      assert SourceFiles(modules) == [m + ".py"] + rest;
      DiscoverOne(m);
      DiscoverSourceFiles(modules[1..]);
      DiscoverAppend([m + ".py"], rest);
    }
  }

  lemma DiscoverOne(m: string)
    requires |m| >= 2 && m[0] != '_'
    ensures DiscoverPlugins([m + ".py"]) == [m]
  {
    PluginFile(m + ".py", m);
    assert [m + ".py"][..0] == [];
  }

  lemma PluginFile(f: string, m: string)
    requires f == m + ".py" && |m| >= 2 && m[0] != '_'
    ensures IsPluginFile(f) && ModuleName(f) == m
  {
    assert f[|f| - 3..] == ".py";
    assert f[..2][0] == m[0];
    assert f[..|f| - 3] == m;
  }

  /** Each plugin module loads its plugin. */
  lemma ShippedModuleLoads(className: string, p: Plugin, name: string)
    ensures LoadOne(Candidate(name, PluginModule(className, p))) == Loaded(p)
  {
    var ms := PluginModule(className, p).members;
    assert !Conforms(ms[0]) && !Conforms(ms[1]) && Conforms(ms[2]);
    assert FirstConforming(ms) == Some(2);
  }

  /** Loading a directory whose plugin files name modules that each hold one
      plugin class, building plugins of distinct names, registers exactly
      those plugins, in discovery order. */
  lemma LoadDirectory(listing: seq<string>, importOf: string -> ImportOutcome, modules: seq<string>,
                      classNames: seq<string>, ps: seq<Plugin>)
    requires DiscoverPlugins(listing) == modules
    requires |modules| == |classNames| == |ps|
    requires forall i :: 0 <= i < |modules| ==> importOf(modules[i]) == PluginModule(classNames[i], ps[i])
    requires forall i, j :: 0 <= i < j < |ps| ==> ps[i].name != ps[j].name
    ensures LoadDiscovered([], listing, importOf) == seq(|ps|, i requires 0 <= i < |ps| => (ps[i].name, ps[i]))
  {
    LoadsInOrder(CandidatesFor(modules, importOf), ps, classNames);
  }

  /** Modules that each hold one plugin class, building plugins of distinct
      names, fill an empty registry with those plugins, in module order. */
  lemma LoadsInOrder(cands: seq<Candidate>, ps: seq<Plugin>, classNames: seq<string>)
    requires |cands| == |ps| == |classNames|
    requires forall i :: 0 <= i < |cands| ==> cands[i].outcome == PluginModule(classNames[i], ps[i])
    requires forall i, j :: 0 <= i < j < |ps| ==> ps[i].name != ps[j].name
    ensures LoadPlugins([], cands) == seq(|ps|, i requires 0 <= i < |ps| => (ps[i].name, ps[i]))
  {
    forall i | 0 <= i < |cands| ensures LoadOne(cands[i]) == Loaded(ps[i]) {
      ShippedModuleLoads(classNames[i], ps[i], cands[i].moduleName);
      assert cands[i] == Candidate(cands[i].moduleName, PluginModule(classNames[i], ps[i]));
    }
    LoadDistinctNames(cands);
    assert Registered(cands) == seq(|ps|, i requires 0 <= i < |ps| => (ps[i].name, ps[i]));
  }

  /** The modules and plugin classes of the directory, in discovery order. */
  const Modules: seq<string> :=
    ["document_analysis", "engineering_calculators", "image_generation", "qr_code_generator", "translation"]
  const ClassNames: seq<string> := [
    "DocumentAnalysisPlugin", "EngineeringCalculatorsPlugin", "ImageGenerationPlugin", "QRCodeGeneratorPlugin",
    "TranslationPlugin"
  ]

  /** Each module of the directory yields its own plugin class. */
  lemma ImportsModules(da: Plugin, ec: Plugin, ig: Plugin, qr: Plugin, tr: Plugin)
    ensures forall i :: 0 <= i < 5 ==>
      ImportWith(da, ec, ig, qr, tr, Modules[i]) == PluginModule(ClassNames[i], [da, ec, ig, qr, tr][i])
  {
    assert ImportWith(da, ec, ig, qr, tr, Modules[0]) == PluginModule(ClassNames[0], da);
    assert ImportWith(da, ec, ig, qr, tr, Modules[1]) == PluginModule(ClassNames[1], ec);
    assert ImportWith(da, ec, ig, qr, tr, Modules[2]) == PluginModule(ClassNames[2], ig);
    assert ImportWith(da, ec, ig, qr, tr, Modules[3]) == PluginModule(ClassNames[3], qr);
    assert ImportWith(da, ec, ig, qr, tr, Modules[4]) == PluginModule(ClassNames[4], tr);
  }

  /** Five plugins reporting the names of their modules load from the
      directory as a registry of five entries, in discovery order. */
  lemma DirectoryRegistry(da: Plugin, ec: Plugin, ig: Plugin, qr: Plugin, tr: Plugin)
    requires da.name == Modules[0] && ec.name == Modules[1] && ig.name == Modules[2]
    requires qr.name == Modules[3] && tr.name == Modules[4]
    ensures var r := LoadDiscovered([], Listing, m => ImportWith(da, ec, ig, qr, tr, m));
      r == [(da.name, da), (ec.name, ec), (ig.name, ig), (qr.name, qr), (tr.name, tr)]
  {
    var ps := [da, ec, ig, qr, tr];
    ShippedDiscovery();
    ImportsModules(da, ec, ig, qr, tr);
    assert forall i, j :: 0 <= i < j < |ps| ==> ps[i].name != ps[j].name by { DistinctModules(); }
    LoadDirectory(Listing, m => ImportWith(da, ec, ig, qr, tr, m), Modules, ClassNames, ps);
    EntriesOfFive(ps);
  }

  lemma DistinctModules()
    ensures forall i, j :: 0 <= i < j < |Modules| ==> Modules[i] != Modules[j]
  {
    assert Modules[0][0] == 'd' && Modules[1][0] == 'e' && Modules[2][0] == 'i' && Modules[3][0] == 'q' && Modules[4][0] == 't';
  }

  lemma EntriesOfFive(ps: seq<Plugin>)
    requires |ps| == 5
    ensures seq(|ps|, i requires 0 <= i < |ps| => (ps[i].name, ps[i]))
         == [(ps[0].name, ps[0]), (ps[1].name, ps[1]), (ps[2].name, ps[2]), (ps[3].name, ps[3]), (ps[4].name, ps[4])]
  {
  }

  /** The plugin directory as shipped, listed in alphabetical order: the four
      modelled plugins and the engineering calculators, each under its own
      name, in that order. */
  lemma ShippedRegistry(ec: Plugin)
    requires ec.name == "engineering_calculators"
    ensures var r := LoadDiscovered([], Listing,
                       m => ImportWith(DocumentAnalysis.Instance, ec, ImageGeneration.Instance, QrCodeGenerator.Instance,
                                       Translation.Instance, m));
      r == [("document_analysis", DocumentAnalysis.Instance), ("engineering_calculators", ec),
            ("image_generation", ImageGeneration.Instance), ("qr_code_generator", QrCodeGenerator.Instance),
            ("translation", Translation.Instance)]
  {
    DirectoryRegistry(DocumentAnalysis.Instance, ec, ImageGeneration.Instance, QrCodeGenerator.Instance, Translation.Instance);
  }
}
