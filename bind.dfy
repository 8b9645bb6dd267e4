/** The binding database of `clang_bind/bind.py`: which targets to bind, each target's `.cpp`
    translation units with their compiler arguments, the headers offered to the parser as
    inclusion sources, and the parse step that attaches a tree to every translation unit. */
module Binding {
  import opened Wrappers
  import opened Strings
  import opened Clang
  import opened CMakeFrontend
  import TreeParse

  /** One entry of a target's `files` list. `parsedTree` is None until the parse step. */
  datatype FileEntry = FileEntry(
    source: string,
    compilerArguments: map<string, seq<string>>,
    parsedTree: Option<seq<TreeParse.TreeNode>>)

  /** `binding_db[target]` */
  datatype TargetEntry = TargetEntry(
    sourceDir: string,
    outputDir: string,
    inclusionSources: seq<string>,
    files: seq<FileEntry>)

  /** The compiler front end the parse step hands a file to: the file's path, the inclusion
      sources and the compiler arguments in, a translation unit out. */
  type FrontEnd = (string, seq<string>, map<string, seq<string>>) -> TranslationUnit

  const CppSuffix := ".cpp"

  /** Calling `.endswith` on every source: anything but a string raises AttributeError. */
  function SourceStrings(sources: seq<Json>): (r: Result<seq<string>>)
    ensures r.Ok? <==> forall i :: 0 <= i < |sources| ==> sources[i].JStr?
    ensures r.Err? ==> r.error == AttributeError
    ensures r.Ok? ==> |r.value| == |sources| && forall i :: 0 <= i < |sources| ==> r.value[i] == sources[i].s
  {
    if sources == [] then Ok([])
    else
      var rest := SourceStrings(sources[..|sources| - 1]);
      var last := sources[|sources| - 1];
      assert forall i :: 0 <= i < |sources| - 1 ==> sources[..|sources| - 1][i] == sources[i];
      if rest.Err? then rest
      else if !last.JStr? then Err(AttributeError)
      else Ok(rest.value + [last.s])
  }

  /** The sources of a target, as strings: `get_sources(target)` checked by the `.cpp` filter. */
  function SourcePaths(reg: Registry, target: Json): Result<seq<string>> {
    match SourcesOf(reg, target)
    case Err(e) => Err(e)
    case Ok(sources) => SourceStrings(sources)
  }

  /** The source list that `get_sources` gives for each target name, as strings, or the
      exception it raises. */
  type SourceLookup = Json -> Result<seq<string>>

  function SourcesIn(reg: Registry): SourceLookup {
    target => SourcePaths(reg, target)
  }

  /** The sources that end in ".cpp" (`cpp` true) or do not (`cpp` false), in source order. */
  function Filtered(sources: seq<string>, cpp: bool): seq<string> {
    if sources == [] then []
    else
      var last := sources[|sources| - 1];
      Filtered(sources[..|sources| - 1], cpp) + (if EndsWith(last, CppSuffix) == cpp then [last] else [])
  }

  /** `list(filter(lambda source: source.endswith(".cpp"), sources))` */
  function CppSources(sources: seq<string>): seq<string> {
    Filtered(sources, true)
  }

  /** `list(set(sources) - set(cpp_sources))`: the other sources, each once. */
  function Headers(sources: seq<string>): seq<string> {
    Dedup(Filtered(sources, false))
  }

  lemma {:induction false} FilteredAppend(a: seq<string>, b: seq<string>, cpp: bool)
    ensures Filtered(a + b, cpp) == Filtered(a, cpp) + Filtered(b, cpp)
  {
    if b != [] {
      var init := b[..|b| - 1];
      var last := b[|b| - 1];
      var tail := if EndsWith(last, CppSuffix) == cpp then [last] else [];
      assert (a + b)[..|a + b| - 1] == a + init;
      assert (a + b)[|a + b| - 1] == last;
      FilteredAppend(a, init, cpp);
      calc {
        Filtered(a + b, cpp);
        Filtered(a + init, cpp) + tail;
        (Filtered(a, cpp) + Filtered(init, cpp)) + tail;
        Filtered(a, cpp) + (Filtered(init, cpp) + tail);
        Filtered(a, cpp) + Filtered(b, cpp);
      }
    } else {
      assert a + b == a;
    }
  }

  lemma {:induction false} FilteredMembers(sources: seq<string>, cpp: bool)
    ensures forall x :: x in Filtered(sources, cpp) <==> x in sources && EndsWith(x, CppSuffix) == cpp
  {
    if sources != [] {
      var init := sources[..|sources| - 1];
      FilteredMembers(init, cpp);
      assert sources == init + [sources[|sources| - 1]];
    }
  }

  /** The `.cpp` filter keeps exactly the sources ending in ".cpp", in their order: it
      distributes over concatenation and keeps or drops each single source by its suffix. */
  lemma CppSourcesSpec(a: seq<string>, b: seq<string>, x: string)
    ensures CppSources(a + b) == CppSources(a) + CppSources(b)
    ensures CppSources([x]) == (if EndsWith(x, CppSuffix) then [x] else [])
    ensures forall y :: y in CppSources(a) <==> y in a && EndsWith(y, CppSuffix)
  {
    FilteredAppend(a, b, true);
    FilteredMembers(a, true);
    assert [x][..0] == [];
    assert Filtered([x], true) == Filtered([], true) + (if EndsWith(x, CppSuffix) then [x] else []);
  }

  /** A target's own inclusion sources are, as a set, its sources not ending in ".cpp". */
  lemma HeadersSpec(sources: seq<string>)
    ensures forall x :: x in Headers(sources) <==> x in sources && !EndsWith(x, CppSuffix)
    ensures NoDuplicates(Headers(sources))
  {
    FilteredMembers(sources, false);
  }

  /** `all_inclusion_sources`: the other sources of every library target, one target after
      another. */
  function AllInclusionSources(paths: SourceLookup, libraries: seq<Json>): Result<seq<string>> {
    if libraries == [] then Ok([])
    else
      match AllInclusionSources(paths, libraries[..|libraries| - 1])
      case Err(e) => Err(e)
      case Ok(rest) =>
        match paths(libraries[|libraries| - 1])
        case Err(e) => Err(e)
        case Ok(sources) => Ok(rest + Headers(sources))
  }

  /** `x` is one of the sources of `target` that do not end in ".cpp". */
  predicate OtherSourceOf(paths: SourceLookup, target: Json, x: string) {
    paths(target).Ok? && x in paths(target).value && !EndsWith(x, CppSuffix)
  }

  /** The inclusion sources are gathered only when every library target's sources are strings. */
  lemma {:induction false} AllInclusionSourcesSucceed(paths: SourceLookup, libraries: seq<Json>)
    ensures AllInclusionSources(paths, libraries).Ok? <==>
      forall i :: 0 <= i < |libraries| ==> paths(libraries[i]).Ok?
  {
    if libraries != [] {
      var init := libraries[..|libraries| - 1];
      AllInclusionSourcesSucceed(paths, init);
      assert forall i :: 0 <= i < |init| ==> init[i] == libraries[i];
    }
  }

  /** The inclusion sources gathered are exactly the other sources of the library targets. */
  lemma {:induction false} AllInclusionSourcesMembers(paths: SourceLookup, libraries: seq<Json>)
    requires AllInclusionSources(paths, libraries).Ok?
    ensures forall x :: x in AllInclusionSources(paths, libraries).value <==>
      exists i :: 0 <= i < |libraries| && OtherSourceOf(paths, libraries[i], x)
  {
    if libraries != [] {
      var init, last := libraries[..|libraries| - 1], libraries[|libraries| - 1];
      var rest := AllInclusionSources(paths, init).value;
      AllInclusionSourcesMembers(paths, init);
      var sources := paths(last).value;
      var all := rest + Headers(sources);
      assert AllInclusionSources(paths, libraries).value == all;
      HeadersSpec(sources);
      forall x ensures x in all <==> exists i :: 0 <= i < |libraries| && OtherSourceOf(paths, libraries[i], x) {
        if x in rest {
          var i :| 0 <= i < |init| && OtherSourceOf(paths, init[i], x);
          assert libraries[i] == init[i];
        } else if x in Headers(sources) {
          assert OtherSourceOf(paths, libraries[|libraries| - 1], x);
        }
        if exists i :: 0 <= i < |libraries| && OtherSourceOf(paths, libraries[i], x) {
          var i :| 0 <= i < |libraries| && OtherSourceOf(paths, libraries[i], x);
          if i < |init| {
            assert init[i] == libraries[i];
          }
        }
      }
    }
  }

  /** The compile arguments `get_compilation_arguments` gives each file, or its exception. */
  type ArgumentLookup = string -> Result<map<string, seq<string>>>

  function ArgumentsIn(db: CompilationDatabase): ArgumentLookup {
    file => db.GetCompilationArguments(Some(file))
  }

  /** The `files` list of a target: one entry per `.cpp` source, in order, with its compile
      arguments. The comprehension stops at the first source whose arguments raise. */
  function FileEntries(arguments: ArgumentLookup, cppSources: seq<string>): (r: Result<seq<FileEntry>>)
    ensures r.Ok? <==> forall i :: 0 <= i < |cppSources| ==> arguments(cppSources[i]).Ok?
    ensures r.Err? ==> exists i :: 0 <= i < |cppSources| && arguments(cppSources[i]) == Err(r.error)
    ensures r.Ok? ==> |r.value| == |cppSources| && forall i :: 0 <= i < |cppSources| ==>
      r.value[i] == FileEntry(cppSources[i], arguments(cppSources[i]).value, None)
  {
    if cppSources == [] then Ok([])
    else
      var init, last := cppSources[..|cppSources| - 1], cppSources[|cppSources| - 1];
      assert forall i :: 0 <= i < |init| ==> init[i] == cppSources[i];
      match FileEntries(arguments, init)
      case Err(e) => Err(e)
      case Ok(rest) =>
        match arguments(last)
        case Err(e) => Err(e)
        case Ok(args) => Ok(rest + [FileEntry(last, args, None)])
  }

  /** clang's database holds a compile command for `file`. */
  predicate HasCommand(db: CompilationDatabase, file: string) {
    exists j :: 0 <= j < |db.commands| && db.commands[j].filename == file
  }

  /** Every `.cpp` source of the list has a compile command. */
  predicate AllCompiled(db: CompilationDatabase, sources: seq<string>) {
    forall x :: x in CppSources(sources) ==> HasCommand(db, x)
  }

  /** The `files` list of a target can be built exactly when every one of its `.cpp` sources
      has a compile command; a source without one makes `getCompileCommands` give None, and
      iterating that raises TypeError. */
  lemma FileEntriesSucceed(db: CompilationDatabase, sources: seq<string>)
    ensures FileEntries(ArgumentsIn(db), CppSources(sources)).Ok? <==> AllCompiled(db, sources)
    ensures FileEntries(ArgumentsIn(db), CppSources(sources)).Err? ==>
      FileEntries(ArgumentsIn(db), CppSources(sources)).error == TypeError
  {
    var cpp := CppSources(sources);
    FilteredMembers(sources, true);
    forall i | 0 <= i < |cpp|
      ensures db.GetCompilationArguments(Some(cpp[i])).Ok? <==> HasCommand(db, cpp[i])
    {
      assert cpp[i] in cpp;
      assert |cpp[i]| >= |CppSuffix|;
    }
    if AllCompiled(db, sources) {
      forall i | 0 <= i < |cpp| ensures HasCommand(db, cpp[i]) {
        assert cpp[i] in cpp;
      }
    }
  }

  /** `binding_db[target]`, built from the target's sources. */
  function Entry(paths: SourceLookup, db: CompilationDatabase, sourceDir: string, outputDir: string,
                 allow: bool, all: seq<string>, target: Json): Result<TargetEntry>
  {
    match paths(target)
    case Err(e) => Err(e)
    case Ok(sources) =>
      match FileEntries(ArgumentsIn(db), CppSources(sources))
      case Err(e) => Err(e)
      case Ok(files) => Ok(TargetEntry(sourceDir, outputDir, if allow then all else Headers(sources), files))
  }

  /** `self.binding_db` after the loop over `targets`. */
  function BindingDb(paths: SourceLookup, db: CompilationDatabase, sourceDir: string, outputDir: string,
                     allow: bool, all: seq<string>, targets: seq<Json>): Result<map<Json, TargetEntry>>
  {
    if targets == [] then Ok(map[])
    else
      var target := targets[|targets| - 1];
      match BindingDb(paths, db, sourceDir, outputDir, allow, all, targets[..|targets| - 1])
      case Err(e) => Err(e)
      case Ok(rest) =>
        match Entry(paths, db, sourceDir, outputDir, allow, all, target)
        case Err(e) => Err(e)
        case Ok(entry) => Ok(rest[target := entry])
  }

  /** The database is filled only when every target's sources can be read and each of their
      `.cpp` sources has a compile command, and then it holds exactly one entry per target,
      keyed by the target's name. */
  lemma {:induction false} BindingDbSpec(paths: SourceLookup, db: CompilationDatabase, sourceDir: string,
                                         outputDir: string, allow: bool, all: seq<string>, targets: seq<Json>)
    ensures BindingDb(paths, db, sourceDir, outputDir, allow, all, targets).Ok? <==>
      forall i :: 0 <= i < |targets| ==> paths(targets[i]).Ok? && AllCompiled(db, paths(targets[i]).value)
    ensures BindingDb(paths, db, sourceDir, outputDir, allow, all, targets).Ok? ==>
      (forall k :: k in BindingDb(paths, db, sourceDir, outputDir, allow, all, targets).value <==> k in targets)
    ensures BindingDb(paths, db, sourceDir, outputDir, allow, all, targets).Ok? ==>
      forall k :: k in BindingDb(paths, db, sourceDir, outputDir, allow, all, targets).value ==>
        Entry(paths, db, sourceDir, outputDir, allow, all, k).Ok? &&
        BindingDb(paths, db, sourceDir, outputDir, allow, all, targets).value[k] ==
          Entry(paths, db, sourceDir, outputDir, allow, all, k).value
  {
    if targets != [] {
      var init, last := targets[..|targets| - 1], targets[|targets| - 1];
      BindingDbSpec(paths, db, sourceDir, outputDir, allow, all, init);
      if paths(last).Ok? {
        FileEntriesSucceed(db, paths(last).value);
      }
      assert targets == init + [last];
      assert forall i :: 0 <= i < |init| ==> init[i] == targets[i];
    }
  }

  /** `Bind.__init__`: bind the named targets, or every library target when none is named. */
  function Plan(reg: Registry, db: CompilationDatabase, sourceDir: string, outputDir: string,
                cppTargets: seq<Json>, allow: bool): Result<map<Json, TargetEntry>>
    requires forall k :: k in reg.order ==> k in reg.targets
  {
    var libraries := SharedLibraries(reg.targets, reg.order);
    match AllInclusionSources(SourcesIn(reg), libraries)
    case Err(e) => Err(e)
    case Ok(all) => BindingDb(SourcesIn(reg), db, sourceDir, outputDir, allow, all, BoundTargets(reg, cppTargets))
  }

  /** The targets `Bind.__init__` binds: those named, or every library target when none is. */
  function BoundTargets(reg: Registry, cppTargets: seq<Json>): seq<Json>
    requires forall k :: k in reg.order ==> k in reg.targets
  {
    if cppTargets == [] then SharedLibraries(reg.targets, reg.order) else cppTargets
  }

  /** Which targets are bound: every library target when none is named, otherwise exactly the
      named ones; and the constructor succeeds exactly when every library target has a
      readable, all-string source list and so has every bound target, whose `.cpp` sources
      each have a compile command. */
  lemma PlanTargets(reg: Registry, db: CompilationDatabase, sourceDir: string, outputDir: string,
                    cppTargets: seq<Json>, allow: bool)
    requires RegistryValid(reg)
    ensures Plan(reg, db, sourceDir, outputDir, cppTargets, allow).Ok? <==>
      (forall k :: k in SharedLibraries(reg.targets, reg.order) ==> SourcePaths(reg, k).Ok?) &&
      (forall k :: k in BoundTargets(reg, cppTargets) ==>
         SourcePaths(reg, k).Ok? && AllCompiled(db, SourcePaths(reg, k).value))
    ensures Plan(reg, db, sourceDir, outputDir, cppTargets, allow).Ok? && cppTargets == [] ==>
      forall k :: k in Plan(reg, db, sourceDir, outputDir, cppTargets, allow).value <==>
        k in reg.targets && Field(reg.targets[k].json, "type") == JStr("SHARED_LIBRARY")
    ensures Plan(reg, db, sourceDir, outputDir, cppTargets, allow).Ok? && cppTargets != [] ==>
      forall k :: k in Plan(reg, db, sourceDir, outputDir, cppTargets, allow).value <==> k in cppTargets
  {
    var libraries := SharedLibraries(reg.targets, reg.order);
    var targets := if cppTargets == [] then libraries else cppTargets;
    SharedLibrariesSpec(reg.targets, reg.order);
    AllInclusionSourcesSucceed(SourcesIn(reg), libraries);
    var all := if AllInclusionSources(SourcesIn(reg), libraries).Ok? then AllInclusionSources(SourcesIn(reg), libraries).value else [];
    BindingDbSpec(SourcesIn(reg), db, sourceDir, outputDir, allow, all, targets);
    assert (forall k :: k in libraries ==> SourcePaths(reg, k).Ok?) <==>
      forall i :: 0 <= i < |libraries| ==> SourcePaths(reg, libraries[i]).Ok?;
    assert (forall k :: k in targets ==> SourcePaths(reg, k).Ok? && AllCompiled(db, SourcePaths(reg, k).value)) <==>
      forall i :: 0 <= i < |targets| ==> SourcePaths(reg, targets[i]).Ok? && AllCompiled(db, SourcePaths(reg, targets[i]).value);
  }

  /** Each bound target's entry is the one its own sources give. */
  lemma PlanEntryIs(reg: Registry, db: CompilationDatabase, sourceDir: string, outputDir: string,
                    cppTargets: seq<Json>, allow: bool, k: Json)
    requires forall k :: k in reg.order ==> k in reg.targets
    requires Plan(reg, db, sourceDir, outputDir, cppTargets, allow).Ok?
    requires k in Plan(reg, db, sourceDir, outputDir, cppTargets, allow).value
    ensures AllInclusionSources(SourcesIn(reg), SharedLibraries(reg.targets, reg.order)).Ok?
    ensures var all := AllInclusionSources(SourcesIn(reg), SharedLibraries(reg.targets, reg.order)).value;
      Entry(SourcesIn(reg), db, sourceDir, outputDir, allow, all, k).Ok? &&
      Plan(reg, db, sourceDir, outputDir, cppTargets, allow).value[k] ==
        Entry(SourcesIn(reg), db, sourceDir, outputDir, allow, all, k).value
  {
    var libraries := SharedLibraries(reg.targets, reg.order);
    var targets := if cppTargets == [] then libraries else cppTargets;
    var all := AllInclusionSources(SourcesIn(reg), libraries).value;
    BindingDbSpec(SourcesIn(reg), db, sourceDir, outputDir, allow, all, targets);
  }

  /** What each bound target's entry holds: the directories unchanged, one file entry per
      `.cpp` source in source order with that file's compile arguments and no tree yet, and as
      inclusion sources either the target's own other sources, each once, or, when inclusions
      from other targets are allowed, the same list for every target: the other sources of all
      library targets. */
  lemma PlanEntry(reg: Registry, db: CompilationDatabase, sourceDir: string, outputDir: string,
                  cppTargets: seq<Json>, allow: bool, k: Json)
    requires forall k :: k in reg.order ==> k in reg.targets
    requires Plan(reg, db, sourceDir, outputDir, cppTargets, allow).Ok?
    requires k in Plan(reg, db, sourceDir, outputDir, cppTargets, allow).value
    ensures SourcePaths(reg, k).Ok?
    ensures var e := Plan(reg, db, sourceDir, outputDir, cppTargets, allow).value[k];
      var sources := SourcePaths(reg, k).value;
      && e.sourceDir == sourceDir && e.outputDir == outputDir
      && |e.files| == |CppSources(sources)|
      && (forall i :: 0 <= i < |e.files| ==>
            && e.files[i].source == CppSources(sources)[i]
            && HasCommand(db, CppSources(sources)[i])
            && db.GetCompilationArguments(Some(CppSources(sources)[i])).Ok?
            && e.files[i].compilerArguments == db.GetCompilationArguments(Some(CppSources(sources)[i])).value
            && e.files[i].parsedTree.None?)
      && (!allow ==> (forall x :: x in e.inclusionSources <==> x in sources && !EndsWith(x, CppSuffix)))
      && (!allow ==> NoDuplicates(e.inclusionSources))
      && (allow ==> e.inclusionSources == AllInclusionSources(SourcesIn(reg), SharedLibraries(reg.targets, reg.order)).value)
  {
    PlanEntryIs(reg, db, sourceDir, outputDir, cppTargets, allow, k);
    assert SourcesIn(reg)(k) == SourcePaths(reg, k);
    HeadersSpec(SourcePaths(reg, k).value);
    FileEntriesSucceed(db, SourcePaths(reg, k).value);
    forall i | 0 <= i < |CppSources(SourcePaths(reg, k).value)|
      ensures HasCommand(db, CppSources(SourcePaths(reg, k).value)[i])
    {
      assert CppSources(SourcePaths(reg, k).value)[i] in CppSources(SourcePaths(reg, k).value);
    }
  }

  /** With inclusions from other targets allowed, every inclusion source of every bound target
      is a non-`.cpp` source of some library target, and each such source is offered. */
  lemma PlanSharedInclusions(reg: Registry, db: CompilationDatabase, sourceDir: string, outputDir: string,
                             cppTargets: seq<Json>, k: Json)
    requires RegistryValid(reg)
    requires Plan(reg, db, sourceDir, outputDir, cppTargets, true).Ok?
    requires k in Plan(reg, db, sourceDir, outputDir, cppTargets, true).value
    ensures forall x :: x in Plan(reg, db, sourceDir, outputDir, cppTargets, true).value[k].inclusionSources <==>
      exists l :: l in reg.targets && Field(reg.targets[l].json, "type") == JStr("SHARED_LIBRARY") &&
        OtherSourceOf(SourcesIn(reg), l, x)
  {
    var libraries := SharedLibraries(reg.targets, reg.order);
    SharedLibrariesSpec(reg.targets, reg.order);
    PlanEntryIs(reg, db, sourceDir, outputDir, cppTargets, true, k);
    var inc := AllInclusionSources(SourcesIn(reg), libraries).value;
    AllInclusionSourcesMembers(SourcesIn(reg), libraries);
    assert Plan(reg, db, sourceDir, outputDir, cppTargets, true).value[k].inclusionSources == inc;
    forall x | x in inc ensures
      exists l :: l in reg.targets && Field(reg.targets[l].json, "type") == JStr("SHARED_LIBRARY") &&
        OtherSourceOf(SourcesIn(reg), l, x)
    {
      var i :| 0 <= i < |libraries| && OtherSourceOf(SourcesIn(reg), libraries[i], x);
      assert libraries[i] in libraries;
    }
    forall x, l | l in reg.targets && Field(reg.targets[l].json, "type") == JStr("SHARED_LIBRARY") &&
                  OtherSourceOf(SourcesIn(reg), l, x)
      ensures x in inc
    {
      assert l in libraries;
      var i :| 0 <= i < |libraries| && libraries[i] == l;
    }
  }

  lemma {:induction false} AllInclusionSourcesErrorPropagates(paths: SourceLookup, libraries: seq<Json>, n: nat)
    requires n <= |libraries| && AllInclusionSources(paths, libraries[..n]).Err?
    ensures AllInclusionSources(paths, libraries) == AllInclusionSources(paths, libraries[..n])
    decreases |libraries| - n
  {
    if n < |libraries| {
      assert libraries[..n + 1][..n] == libraries[..n];
      AllInclusionSourcesErrorPropagates(paths, libraries, n + 1);
    } else {
      assert libraries[..n] == libraries;
    }
  }

  lemma {:induction false} BindingDbErrorPropagates(paths: SourceLookup, db: CompilationDatabase, sourceDir: string,
                                                    outputDir: string, allow: bool, all: seq<string>,
                                                    targets: seq<Json>, n: nat)
    requires n <= |targets| && BindingDb(paths, db, sourceDir, outputDir, allow, all, targets[..n]).Err?
    ensures BindingDb(paths, db, sourceDir, outputDir, allow, all, targets) ==
      BindingDb(paths, db, sourceDir, outputDir, allow, all, targets[..n])
    decreases |targets| - n
  {
    if n < |targets| {
      assert targets[..n + 1][..n] == targets[..n];
      BindingDbErrorPropagates(paths, db, sourceDir, outputDir, allow, all, targets, n + 1);
    } else {
      assert targets[..n] == targets;
    }
  }

  lemma BindingDbStep(paths: SourceLookup, db: CompilationDatabase, sourceDir: string, outputDir: string,
                      allow: bool, all: seq<string>, targets: seq<Json>, i: nat, m: map<Json, TargetEntry>)
    requires i < |targets| && paths(targets[i]).Ok?
    requires BindingDb(paths, db, sourceDir, outputDir, allow, all, targets[..i]) == Ok(m)
    ensures FileEntries(ArgumentsIn(db), CppSources(paths(targets[i]).value)).Err? ==>
      BindingDb(paths, db, sourceDir, outputDir, allow, all, targets[..i + 1]) == Err(TypeError)
    ensures FileEntries(ArgumentsIn(db), CppSources(paths(targets[i]).value)).Ok? ==>
      BindingDb(paths, db, sourceDir, outputDir, allow, all, targets[..i + 1]) ==
        Ok(m[targets[i] := TargetEntry(sourceDir, outputDir,
                                       if allow then all else Headers(paths(targets[i]).value),
                                       FileEntries(ArgumentsIn(db), CppSources(paths(targets[i]).value)).value)])
  {
    assert targets[..i + 1][..i] == targets[..i];
    FileEntriesSucceed(db, paths(targets[i]).value);
  }

  lemma BindingDbStepError(paths: SourceLookup, db: CompilationDatabase, sourceDir: string, outputDir: string,
                           allow: bool, all: seq<string>, targets: seq<Json>, i: nat)
    requires i < |targets| && paths(targets[i]).Err?
    requires BindingDb(paths, db, sourceDir, outputDir, allow, all, targets[..i]).Ok?
    ensures BindingDb(paths, db, sourceDir, outputDir, allow, all, targets) == Err(paths(targets[i]).error)
  {
    assert targets[..i + 1][..i] == targets[..i];
    BindingDbErrorPropagates(paths, db, sourceDir, outputDir, allow, all, targets, i + 1);
  }

  /** `str(Path(directory, path))`: an absolute path stands alone, a relative one is put under
      the directory. */
  function Join(directory: string, path: string): string {
    if StartsWith(path, "/") || directory == "" then path
    else if path == "" || EndsWith(directory, "/") then directory + path
    else directory + "/" + path
  }

  /** The joined path ends with the relative path, after a separator and under the directory. */
  lemma JoinSpec(directory: string, path: string)
    ensures StartsWith(path, "/") ==> Join(directory, path) == path
    ensures !StartsWith(path, "/") && directory != "" && path != "" ==>
      var r := Join(directory, path);
      && |path| < |r|
      && r[|r| - |path|..] == path
      && r[|r| - |path| - 1] == '/'
      && StartsWith(r, directory)
      && |r| == |directory| + |path| + (if EndsWith(directory, "/") then 0 else 1)
    ensures directory == "" ==> Join(directory, path) == path
  {
    if !StartsWith(path, "/") && directory != "" && path != "" {
      var r := Join(directory, path);
      if EndsWith(directory, "/") {
        assert r == directory + path;
        assert r[|r| - |path| - 1] == directory[|directory| - 1];
      } else {
        assert r == directory + "/" + path;
      }
      assert directory <= r;
    }
  }

  /** `[str(Path(source_dir, s)) for s in target.get("inclusion_sources")]` */
  function JoinedInclusions(entry: TargetEntry): seq<string> {
    seq(|entry.inclusionSources|, i requires 0 <= i < |entry.inclusionSources| =>
      Join(entry.sourceDir, entry.inclusionSources[i]))
  }

  /** The translation unit the front end makes of a file of this target. */
  function UnitOf(entry: TargetEntry, file: FileEntry, frontEnd: FrontEnd): TranslationUnit {
    frontEnd(Join(entry.sourceDir, file.source), JoinedInclusions(entry), file.compilerArguments)
  }

  /** `file.update({"parsed_tree": ...})` */
  function ParsedFile(entry: TargetEntry, file: FileEntry, frontEnd: FrontEnd): FileEntry {
    file.(parsedTree := Some(TreeParse.BuiltTree(UnitOf(entry, file, frontEnd))))
  }

  function ParsedEntry(entry: TargetEntry, frontEnd: FrontEnd): TargetEntry {
    entry.(files := seq(|entry.files|, i requires 0 <= i < |entry.files| =>
      ParsedFile(entry, entry.files[i], frontEnd)))
  }

  /** The database after `_parse`. */
  function ParsedDb(db: map<Json, TargetEntry>, frontEnd: FrontEnd): map<Json, TargetEntry> {
    map k | k in db :: ParsedEntry(db[k], frontEnd)
  }

  /** The parse step keeps every target, directory, inclusion source and file as it was and
      gives each file a well-formed tree whose root is the cursor of the file's translation unit,
      the unit the front end made of the file under the source directory, with the inclusion
      sources put under the source directory. */
  lemma ParsedDbSpec(db: map<Json, TargetEntry>, frontEnd: FrontEnd, k: Json, i: nat)
    requires k in db && i < |db[k].files|
    ensures ParsedDb(db, frontEnd).Keys == db.Keys
    ensures var e := ParsedDb(db, frontEnd)[k];
      && e.sourceDir == db[k].sourceDir && e.outputDir == db[k].outputDir
      && e.inclusionSources == db[k].inclusionSources
      && |e.files| == |db[k].files|
    ensures var f := ParsedDb(db, frontEnd)[k].files[i];
      var unit := frontEnd(Join(db[k].sourceDir, db[k].files[i].source),
                           JoinedInclusions(db[k]), db[k].files[i].compilerArguments);
      && f.source == db[k].files[i].source
      && f.compilerArguments == db[k].files[i].compilerArguments
      && f.parsedTree.Some?
      && TreeParse.WellFormed(f.parsedTree.value, unit.spelling)
      && f.parsedTree.value[0].cursor == unit.cursor
    ensures |JoinedInclusions(db[k])| == |db[k].inclusionSources|
    ensures forall j :: 0 <= j < |db[k].inclusionSources| ==>
      JoinedInclusions(db[k])[j] == Join(db[k].sourceDir, db[k].inclusionSources[j])
  {
    TreeParse.BuiltTreeWellFormed(UnitOf(db[k], db[k].files[i], frontEnd));
  }

  /** `_parse` as written calls the two-argument `Parse` of `clang_bind/parse.py` with three
      arguments, which raises TypeError at the first file of any target. */
  function ParseAsWritten(db: map<Json, TargetEntry>): (r: Result<map<Json, TargetEntry>>)
    ensures r.Err? <==> exists k :: k in db && db[k].files != []
    ensures r.Ok? ==> r.value == db
  {
    if exists k :: k in db && db[k].files != [] then Err(TypeError) else Ok(db)
  }

  /** A target with a single `.cpp` file is enough to make the parse step fail as written. */
  lemma ParseAsWrittenRaises(e: TargetEntry, f: FileEntry)
    requires e.files == [f]
    ensures ParseAsWritten(map[JStr("target") := e]) == Err(TypeError)
  {
    assert JStr("target") in map[JStr("target") := e];
  }

  /** A binder: the binding database of the targets chosen. */
  class Bind {
    var bindingDb: map<Json, TargetEntry>

    constructor ()
      ensures bindingDb == map[]
    {
      bindingDb := map[];
    }

    /** `Bind(source_dir, build_dir, output_dir, output_module_name, cpp_targets,
        allow_inclusions_from_other_targets)`, given the build directory's file API and
        compilation database. */
    static method New(api: CMakeFileAPI, db: CompilationDatabase, sourceDir: string, outputDir: string,
                      cppTargets: seq<Json>, allow: bool) returns (r: Result<Bind>)
      requires api.Valid()
      ensures r.Ok? <==> Plan(Registry(api.targets, api.order), db, sourceDir, outputDir, cppTargets, allow).Ok?
      ensures r.Err? ==>
        r.error == Plan(Registry(api.targets, api.order), db, sourceDir, outputDir, cppTargets, allow).error
      ensures r.Ok? ==> (fresh(r.value) &&
        r.value.bindingDb == Plan(Registry(api.targets, api.order), db, sourceDir, outputDir, cppTargets, allow).value)
    {
      var allTargets := api.GetLibraryTargets();
      var targets := if cppTargets == [] then allTargets else cppTargets;
      var all := GatherInclusionSources(api, allTargets);
      if all.Err? {
        return Err(all.error);
      }
      var b := new Bind();
      var filled := b.FillBindingDb(api, db, sourceDir, outputDir, allow, all.value, targets);
      if filled.Err? {
        return Err(filled.error);
      }
      return Ok(b);
    }

    /** The loop over all library targets that gathers `all_inclusion_sources`. */
    static method GatherInclusionSources(api: CMakeFileAPI, libraries: seq<Json>) returns (r: Result<seq<string>>)
      ensures r == AllInclusionSources(SourcesIn(Registry(api.targets, api.order)), libraries)
    {
      ghost var lookup := SourcesIn(Registry(api.targets, api.order));
      var all: seq<string> := [];
      var i := 0;
      while i < |libraries|
        invariant 0 <= i <= |libraries|
        invariant AllInclusionSources(lookup, libraries[..i]) == Ok(all)
      {
        assert libraries[..i + 1][..i] == libraries[..i];
        var sources := api.GetSources(libraries[i]);
        var paths := if sources.Ok? then SourceStrings(sources.value) else Err(sources.error);
        if paths.Err? {
          AllInclusionSourcesErrorPropagates(lookup, libraries, i + 1);
          return Err(paths.error);
        }
        all := all + Headers(paths.value);
        i := i + 1;
      }
      assert libraries[..i] == libraries;
      return Ok(all);
    }

    /** The loop over the targets to bind that fills `self.binding_db`. */
    method FillBindingDb(api: CMakeFileAPI, db: CompilationDatabase, sourceDir: string, outputDir: string,
                         allow: bool, all: seq<string>, targets: seq<Json>) returns (r: Result<()>)
      modifies this
      ensures r.Ok? <==> BindingDb(SourcesIn(Registry(api.targets, api.order)), db, sourceDir, outputDir, allow, all, targets).Ok?
      ensures r.Err? ==>
        r.error == BindingDb(SourcesIn(Registry(api.targets, api.order)), db, sourceDir, outputDir, allow, all, targets).error
      ensures r.Ok? ==>
        bindingDb == BindingDb(SourcesIn(Registry(api.targets, api.order)), db, sourceDir, outputDir, allow, all, targets).value
    {
      ghost var lookup := SourcesIn(Registry(api.targets, api.order));
      bindingDb := map[];
      var i := 0;
      while i < |targets|
        invariant 0 <= i <= |targets|
        invariant lookup == SourcesIn(Registry(api.targets, api.order))
        invariant BindingDb(lookup, db, sourceDir, outputDir, allow, all, targets[..i]) == Ok(bindingDb)
      {
        var target := targets[i];
        var sources := api.GetSources(target);
        var paths := if sources.Ok? then SourceStrings(sources.value) else Err(sources.error);
        if paths.Err? {
          BindingDbStepError(lookup, db, sourceDir, outputDir, allow, all, targets, i);
          return Err(paths.error);
        }
        var cppSources := CppSources(paths.value);
        var inclusionSources := if allow then all else Headers(paths.value);
        var files := FileEntries(ArgumentsIn(db), cppSources);
        BindingDbStep(lookup, db, sourceDir, outputDir, allow, all, targets, i, bindingDb);
        if files.Err? {
          BindingDbErrorPropagates(lookup, db, sourceDir, outputDir, allow, all, targets, i + 1);
          return Err(files.error);
        }
        bindingDb := bindingDb[target := TargetEntry(sourceDir, outputDir, inclusionSources, files.value)];
        i := i + 1;
      }
      assert targets[..i] == targets;
      return Ok(());
    }

    /** `Bind._parse`: give every file of every target the tree its parse yields. */
    method ParseFiles(frontEnd: FrontEnd)
      modifies this
      ensures bindingDb == ParsedDb(old(bindingDb), frontEnd)
    {
      ghost var start := bindingDb;
      var remaining := bindingDb.Keys;
      while remaining != {}
        invariant remaining <= start.Keys && bindingDb.Keys == start.Keys
        invariant forall k :: k in remaining ==> bindingDb[k] == start[k]
        invariant forall k :: k in start && k !in remaining ==> bindingDb[k] == ParsedEntry(start[k], frontEnd)
        decreases remaining
      {
        var key :| key in remaining;
        var target := bindingDb[key];
        var inclusionSources := JoinedInclusions(target);
        var files := target.files;
        ghost var before := bindingDb;
        var i := 0;
        while i < |files|
          invariant bindingDb == before
          invariant 0 <= i <= |files| == |target.files|
          invariant forall j :: 0 <= j < i ==> files[j] == ParsedFile(target, target.files[j], frontEnd)
          invariant forall j :: i <= j < |files| ==> files[j] == target.files[j]
        {
          var unit := frontEnd(Join(target.sourceDir, files[i].source), inclusionSources, files[i].compilerArguments);
          var tree := TreeParse.ParseAndGetTree(unit);
          files := files[i := files[i].(parsedTree := Some(tree))];
          i := i + 1;
        }
        bindingDb := bindingDb[key := target.(files := files)];
        remaining := remaining - {key};
      }
    }
  }
}
