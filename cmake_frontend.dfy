/** clang_bind/cmake_frontend.py: reading compile commands and the targets of CMake's file API.
    The JSON files are taken as already loaded: `json.load`, `open` and the directory listing
    are not modelled, and a loaded reply file is a `Json` value. */
module CMakeFrontend {
  import opened Wrappers
  import opened Strings
  import opened Clang

  /** A value `json.load` produces. An object keeps its members in file order, duplicates
      included, as the decoder sees them. */
  datatype Json =
    | JNull
    | JBool(b: bool)
    | JNum(n: int)
    | JStr(s: string)
    | JArray(items: seq<Json>)
    | JObject(fields: seq<(string, Json)>)

  /** `fields[i]` is the last member named `key`. */
  predicate LastWith(fields: seq<(string, Json)>, key: string, i: int) {
    0 <= i < |fields| && fields[i].0 == key && forall j :: i < j < |fields| ==> fields[j].0 != key
  }

  /** `d[key]` of the decoded dictionary: a repeated key holds its last value. */
  function Lookup(fields: seq<(string, Json)>, key: string): (r: Option<Json>)
    ensures r.None? <==> forall i :: 0 <= i < |fields| ==> fields[i].0 != key
  {
    if fields == [] then None
    else if fields[|fields| - 1].0 == key then Some(fields[|fields| - 1].1)
    else
      var init := fields[..|fields| - 1];
      assert forall i :: 0 <= i < |init| ==> init[i] == fields[i];
      Lookup(init, key)
  }

  /** A found value is that of the last member with the key, as `json.load` keeps it. */
  lemma {:induction false} LookupLast(fields: seq<(string, Json)>, key: string)
    ensures Lookup(fields, key).Some? ==>
      exists i :: LastWith(fields, key, i) && fields[i].1 == Lookup(fields, key).value
  {
    if fields != [] && fields[|fields| - 1].0 != key {
      var init := fields[..|fields| - 1];
      LookupLast(init, key);
      if Lookup(init, key).Some? {
        var i :| LastWith(init, key, i) && init[i].1 == Lookup(init, key).value;
        LastWithExtend(fields, key, i);
      }
    } else if fields != [] {
      assert LastWith(fields, key, |fields| - 1);
    }
  }

  /** A member named last stays last when a member with another key follows it. */
  lemma LastWithExtend(fields: seq<(string, Json)>, key: string, i: int)
    requires fields != [] && fields[|fields| - 1].0 != key && LastWith(fields[..|fields| - 1], key, i)
    ensures LastWith(fields, key, i) && fields[i] == fields[..|fields| - 1][i]
  {
    assert forall j :: 0 <= j < |fields| - 1 ==> fields[..|fields| - 1][j] == fields[j];
  }

  /** `o.get(key)` on an object: the member's value, or None when it is absent. */
  function Field(o: Json, key: string): Json {
    if o.JObject? && Lookup(o.fields, key).Some? then Lookup(o.fields, key).value else JNull
  }

  /** `o.get(key, default)`: only a dictionary has `get`. */
  function GetOr(o: Json, key: string, default: Json): (r: Result<Json>)
    ensures !o.JObject? ==> r == Err(AttributeError)
    ensures o.JObject? && Lookup(o.fields, key).None? ==> r == Ok(default)
    ensures o.JObject? && Lookup(o.fields, key).Some? ==> r == Ok(Lookup(o.fields, key).value)
  {
    if !o.JObject? then Err(AttributeError)
    else if Lookup(o.fields, key).Some? then Ok(Lookup(o.fields, key).value)
    else Ok(default)
  }

  /** `o.get(key)` */
  function Get(o: Json, key: string): (r: Result<Json>)
    ensures !o.JObject? ==> r == Err(AttributeError)
    ensures o.JObject? ==> r == Ok(Field(o, key))
  {
    GetOr(o, key, JNull)
  }

  /** The keys of a decoded dictionary in iteration order: first appearance, once each. */
  function Keys(fields: seq<(string, Json)>): (r: seq<string>)
    ensures forall k :: k in r <==> Lookup(fields, k).Some?
    ensures NoDuplicates(r)
  {
    var names := seq(|fields|, i requires 0 <= i < |fields| => fields[i].0);
    assert forall k :: k in names <==> exists i :: 0 <= i < |fields| && fields[i].0 == k by {
      forall k | k in names ensures exists i :: 0 <= i < |fields| && fields[i].0 == k {
        var i :| 0 <= i < |names| && names[i] == k;
        assert fields[i].0 == k;
      }
      forall k | exists i :: 0 <= i < |fields| && fields[i].0 == k ensures k in names {
        var i :| 0 <= i < |fields| && fields[i].0 == k;
        assert names[i] == k;
      }
    }
    Dedup(names)
  }

  /** `for e in x`: a list gives its items, a dictionary its keys, a string its characters;
      None, booleans and numbers are not iterable. */
  function Iter(x: Json): (r: Result<seq<Json>>)
    ensures r.Err? <==> x.JNull? || x.JBool? || x.JNum?
    ensures r.Err? ==> r.error == TypeError
    ensures x.JArray? ==> r == Ok(x.items)
    ensures x.JObject? ==> (r.Ok? && |r.value| == |Keys(x.fields)| &&
      forall i :: 0 <= i < |r.value| ==> r.value[i] == JStr(Keys(x.fields)[i]))
    ensures x.JStr? ==> (r.Ok? && |r.value| == |x.s| &&
      forall i :: 0 <= i < |r.value| ==> r.value[i] == JStr([x.s[i]]))
  {
    match x
    case JArray(items) => Ok(items)
    case JObject(fields) => Ok(seq(|Keys(fields)|, i requires 0 <= i < |Keys(fields)| => JStr(Keys(fields)[i])))
    case JStr(s) => Ok(seq(|s|, i requires 0 <= i < |s| => JStr([s[i]])))
    case _ => Err(TypeError)
  }

  /** `[e.get(key) for e in es]`, evaluated left to right: the first element that is not a
      dictionary raises AttributeError. */
  function ProjectAll(es: seq<Json>, key: string): (r: Result<seq<Json>>)
  {
    if es == [] then Ok([])
    else match Get(es[0], key)
      case Err(e) => Err(e)
      case Ok(v) =>
        match ProjectAll(es[1..], key)
        case Err(e) => Err(e)
        case Ok(vs) => Ok([v] + vs)
  }

  /** `[e.get(sub) for e in o.get(key, [])]`: the list getters of `Target`. */
  function ListOf(o: Json, key: string, sub: string): (r: Result<seq<Json>>)
    ensures !o.JObject? ==> r == Err(AttributeError)
    ensures o.JObject? && Lookup(o.fields, key).None? ==> r == Ok([])
  {
    match GetOr(o, key, JArray([]))
    case Err(e) => Err(e)
    case Ok(x) =>
      match Iter(x)
      case Err(e) => Err(e)
      case Ok(es) => ProjectAll(es, sub)
  }

  /** The projection succeeds exactly when every element is a dictionary, and then gives each
      element's member, or None where it lacks one, in order; otherwise the first element that
      is not a dictionary raises AttributeError. */
  lemma {:induction false} ProjectAllSpec(es: seq<Json>, key: string)
    ensures ProjectAll(es, key).Ok? <==> forall i :: 0 <= i < |es| ==> es[i].JObject?
    ensures ProjectAll(es, key).Err? ==> ProjectAll(es, key).error == AttributeError
    ensures ProjectAll(es, key).Ok? ==>
      |ProjectAll(es, key).value| == |es| &&
      forall i :: 0 <= i < |es| ==> ProjectAll(es, key).value[i] == Field(es[i], key)
  {
    if es != [] {
      ProjectAllSpec(es[1..], key);
      assert forall i :: 1 <= i < |es| ==> es[1..][i - 1] == es[i];
      if ProjectAll(es, key).Ok? {
        var vs := ProjectAll(es[1..], key).value;
        assert ProjectAll(es, key).value == [Field(es[0], key)] + vs;
      }
    }
  }

  /** A compile group as `get_compile_groups` returns it. */
  datatype CompileGroup = CompileGroup(fragments: seq<Json>, defines: seq<Json>, includes: seq<Json>, language: Json)

  /** `[{... for compile_group in groups}]`, left to right. */
  function CompileGroupsOf(groups: seq<Json>): (r: Result<seq<CompileGroup>>)
  {
    if groups == [] then Ok([])
    else
      var g := groups[0];
      match ListOf(g, "compileCommandFragments", "fragment")
      case Err(e) => Err(e)
      case Ok(fragments) =>
        match ListOf(g, "defines", "define")
        case Err(e) => Err(e)
        case Ok(defines) =>
          match ListOf(g, "includes", "path")
          case Err(e) => Err(e)
          case Ok(includes) =>
            match CompileGroupsOf(groups[1..])
            case Err(e) => Err(e)
            case Ok(rest) => Ok([CompileGroup(fragments, defines, includes, Field(g, "language"))] + rest)
  }

  /** One record per compile group, in order; each list holds the members of that group's
      own list, and a list the group lacks is empty. */
  lemma {:induction false} CompileGroupsSpec(groups: seq<Json>)
    requires CompileGroupsOf(groups).Ok?
    ensures |CompileGroupsOf(groups).value| == |groups|
    ensures forall i :: 0 <= i < |groups| ==>
      && groups[i].JObject?
      && ListOf(groups[i], "compileCommandFragments", "fragment") == Ok(CompileGroupsOf(groups).value[i].fragments)
      && ListOf(groups[i], "defines", "define") == Ok(CompileGroupsOf(groups).value[i].defines)
      && ListOf(groups[i], "includes", "path") == Ok(CompileGroupsOf(groups).value[i].includes)
      && CompileGroupsOf(groups).value[i].language == Field(groups[i], "language")
  {
    if groups != [] {
      CompileGroupsSpec(groups[1..]);
      var r := CompileGroupsOf(groups).value;
      assert r[1..] == CompileGroupsOf(groups[1..]).value;
      forall i | 1 <= i < |groups| ensures groups[1..][i - 1] == groups[i] && r[i] == r[1..][i - 1] { }
    }
  }

  /** `[f.get("fragment") for f in fragments if f.get("role") == role]`, left to right. */
  function FragmentsWithRole(fs: seq<Json>, role: string): (r: Result<seq<Json>>)
  {
    if fs == [] then Ok([])
    else if !fs[0].JObject? then Err(AttributeError)
    else
      match FragmentsWithRole(fs[1..], role)
      case Err(e) => Err(e)
      case Ok(rest) =>
        if Field(fs[0], "role") == JStr(role) then Ok([Field(fs[0], "fragment")] + rest) else Ok(rest)
  }

  /** The fragments among `fs` whose role is `role`, in order. */
  function WithRole(fs: seq<Json>, role: string): seq<Json> {
    if fs == [] then []
    else (if Field(fs[0], "role") == JStr(role) then [fs[0]] else []) + WithRole(fs[1..], role)
  }

  /** Selecting by role keeps exactly the fragments with that role, in order, and reads their
      "fragment" member; it fails only on a fragment that is not a dictionary. */
  lemma {:induction false} FragmentsWithRoleSpec(fs: seq<Json>, role: string)
    ensures FragmentsWithRole(fs, role).Ok? <==> forall i :: 0 <= i < |fs| ==> fs[i].JObject?
    ensures FragmentsWithRole(fs, role).Ok? ==>
      ProjectAll(WithRole(fs, role), "fragment") == FragmentsWithRole(fs, role)
  {
    if fs != [] {
      FragmentsWithRoleSpec(fs[1..], role);
      assert forall i :: 1 <= i < |fs| ==> fs[1..][i - 1] == fs[i];
      var w := WithRole(fs[1..], role);
      if FragmentsWithRole(fs, role).Ok? {
        if Field(fs[0], "role") == JStr(role) {
          assert WithRole(fs, role) == [fs[0]] + w;
          assert ([fs[0]] + w)[0] == fs[0] && ([fs[0]] + w)[1..] == w;
          assert ProjectAll([fs[0]] + w, "fragment") ==
            Ok([Field(fs[0], "fragment")] + ProjectAll(w, "fragment").value);
        } else {
          assert WithRole(fs, role) == w;
        }
      }
    }
  }

  /** Selection by role distributes over concatenation of fragment lists. */
  lemma {:induction false} WithRoleAppend(a: seq<Json>, b: seq<Json>, role: string)
    ensures WithRole(a + b, role) == WithRole(a, role) + WithRole(b, role)
  {
    if a != [] {
      var head := if Field(a[0], "role") == JStr(role) then [a[0]] else [];
      assert (a + b)[0] == a[0] && (a + b)[1..] == a[1..] + b;
      assert WithRole(a + b, role) == head + WithRole(a[1..] + b, role);
      WithRoleAppend(a[1..], b, role);
      assert WithRole(a, role) == head + WithRole(a[1..], role);
    } else {
      assert a + b == b;
    }
  }

  /** A fragment is a flag fragment, a library fragment or neither, never both: the two
      selections together hold at most as many fragments as the link command has. */
  lemma {:induction false} FlagsAndLibrariesDisjoint(fs: seq<Json>)
    ensures |WithRole(fs, "flags")| + |WithRole(fs, "libraries")| <= |fs|
    ensures forall i :: 0 <= i < |WithRole(fs, "flags")| ==> Field(WithRole(fs, "flags")[i], "role") == JStr("flags")
    ensures forall i :: 0 <= i < |WithRole(fs, "libraries")| ==> Field(WithRole(fs, "libraries")[i], "role") == JStr("libraries")
  {
    if fs != [] {
      FlagsAndLibrariesDisjoint(fs[1..]);
      assert "flags" != "libraries" by { assert "flags"[0] != "libraries"[0]; }
    }
  }

  datatype Install = Install(destinations: seq<Json>, prefix: Json)
  datatype Link = Link(flagsFragments: seq<Json>, librariesFragments: seq<Json>, language: Json)

  /** A loaded target reply file. */
  datatype Target = Target(json: Json) {

    /** `Target.get_artifacts` */
    function GetArtifacts(): (r: Result<seq<Json>>)
      ensures !json.JObject? ==> r == Err(AttributeError)
      ensures json.JObject? && Lookup(json.fields, "artifacts").None? ==> r == Ok([])
    {
      ListOf(json, "artifacts", "path")
    }

    /** `Target.get_commands`: `backtraceGraph.commands`, None when absent. */
    function GetCommands(): (r: Result<Json>)
      ensures !json.JObject? ==> r == Err(AttributeError)
      ensures json.JObject? && Lookup(json.fields, "backtraceGraph").None? ==> r == Ok(JNull)
      ensures json.JObject? && Lookup(json.fields, "backtraceGraph").Some? ==>
        var o := Lookup(json.fields, "backtraceGraph").value;
        (!o.JObject? ==> r == Err(AttributeError)) && (o.JObject? ==> r == Ok(Field(o, "commands")))
    {
      match GetOr(json, "backtraceGraph", JObject([]))
      case Err(e) => Err(e)
      case Ok(graph) => Get(graph, "commands")
    }

    /** `Target.get_compile_groups` */
    function GetCompileGroups(): (r: Result<seq<CompileGroup>>)
      ensures !json.JObject? ==> r == Err(AttributeError)
      ensures json.JObject? && Lookup(json.fields, "compileGroups").None? ==> r == Ok([])
    {
      match GetOr(json, "compileGroups", JArray([]))
      case Err(e) => Err(e)
      case Ok(x) =>
        match Iter(x)
        case Err(e) => Err(e)
        case Ok(groups) => CompileGroupsOf(groups)
    }

    /** `Target.get_dependencies`: the dependency ids. */
    function GetDependencies(): (r: Result<seq<Json>>)
      ensures !json.JObject? ==> r == Err(AttributeError)
      ensures json.JObject? && Lookup(json.fields, "dependencies").None? ==> r == Ok([])
    {
      ListOf(json, "dependencies", "id")
    }

    /** `Target.get_files`: `backtraceGraph.files`, None when absent. */
    function GetFiles(): (r: Result<Json>)
      ensures !json.JObject? ==> r == Err(AttributeError)
      ensures json.JObject? && Lookup(json.fields, "backtraceGraph").None? ==> r == Ok(JNull)
      ensures json.JObject? && Lookup(json.fields, "backtraceGraph").Some? ==>
        var o := Lookup(json.fields, "backtraceGraph").value;
        (!o.JObject? ==> r == Err(AttributeError)) && (o.JObject? ==> r == Ok(Field(o, "files")))
    {
      match GetOr(json, "backtraceGraph", JObject([]))
      case Err(e) => Err(e)
      case Ok(graph) => Get(graph, "files")
    }

    /** `Target.get_folder`: `folder.name`, None when absent. */
    function GetFolder(): (r: Result<Json>)
      ensures !json.JObject? ==> r == Err(AttributeError)
      ensures json.JObject? && Lookup(json.fields, "folder").None? ==> r == Ok(JNull)
      ensures json.JObject? && Lookup(json.fields, "folder").Some? ==>
        var o := Lookup(json.fields, "folder").value;
        (!o.JObject? ==> r == Err(AttributeError)) && (o.JObject? ==> r == Ok(Field(o, "name")))
    {
      match GetOr(json, "folder", JObject([]))
      case Err(e) => Err(e)
      case Ok(folder) => Get(folder, "name")
    }

    /** `Target.get_id` */
    function GetId(): (r: Result<Json>)
      ensures !json.JObject? ==> r == Err(AttributeError)
      ensures json.JObject? && Lookup(json.fields, "id").None? ==> r == Ok(JNull)
      ensures json.JObject? && Lookup(json.fields, "id").Some? ==> r == Ok(Lookup(json.fields, "id").value)
    {
      Get(json, "id")
    }

    /** `Target.get_install`: the destination paths and the prefix path. */
    function GetInstall(): (r: Result<Install>)
      ensures !json.JObject? ==> r == Err(AttributeError)
      ensures json.JObject? && Lookup(json.fields, "install").None? ==> r == Ok(Install([], JNull))
    {
      match GetOr(json, "install", JObject([]))
      case Err(e) => Err(e)
      case Ok(install) =>
        match ListOf(install, "destinations", "path")
        case Err(e) => Err(e)
        case Ok(destinations) =>
          match GetOr(install, "prefix", JObject([]))
          case Err(e) => Err(e)
          case Ok(prefix) =>
            match Get(prefix, "path")
            case Err(e) => Err(e)
            case Ok(path) => Ok(Install(destinations, path))
    }

    /** `Target.get_link`: the fragments of the link command split by role, and the language. */
    function GetLink(): (r: Result<Link>)
      ensures !json.JObject? ==> r == Err(AttributeError)
      ensures json.JObject? && Lookup(json.fields, "link").None? ==> r == Ok(Link([], [], JNull))
    {
      match GetOr(json, "link", JObject([]))
      case Err(e) => Err(e)
      case Ok(link) =>
        match GetOr(link, "commandFragments", JArray([]))
        case Err(e) => Err(e)
        case Ok(x) =>
          match Iter(x)
          case Err(e) => Err(e)
          case Ok(fragments) =>
            match FragmentsWithRole(fragments, "flags")
            case Err(e) => Err(e)
            case Ok(flags) =>
              match FragmentsWithRole(fragments, "libraries")
              case Err(e) => Err(e)
              case Ok(libraries) => Ok(Link(flags, libraries, Field(link, "language")))
    }

    /** `Target.get_name` */
    function GetName(): (r: Result<Json>)
      ensures !json.JObject? ==> r == Err(AttributeError)
      ensures json.JObject? && Lookup(json.fields, "name").None? ==> r == Ok(JNull)
      ensures json.JObject? && Lookup(json.fields, "name").Some? ==> r == Ok(Lookup(json.fields, "name").value)
    {
      Get(json, "name")
    }

    /** `Target.get_name_on_disk` */
    function GetNameOnDisk(): (r: Result<Json>)
      ensures !json.JObject? ==> r == Err(AttributeError)
      ensures json.JObject? && Lookup(json.fields, "nameOnDisk").None? ==> r == Ok(JNull)
      ensures json.JObject? && Lookup(json.fields, "nameOnDisk").Some? ==> r == Ok(Lookup(json.fields, "nameOnDisk").value)
    {
      Get(json, "nameOnDisk")
    }

    /** `Target.get_paths` */
    function GetPaths(): (r: Result<Json>)
      ensures !json.JObject? ==> r == Err(AttributeError)
      ensures json.JObject? && Lookup(json.fields, "paths").None? ==> r == Ok(JNull)
      ensures json.JObject? && Lookup(json.fields, "paths").Some? ==> r == Ok(Lookup(json.fields, "paths").value)
    {
      Get(json, "paths")
    }

    /** `Target.get_sources`: the source paths. */
    function GetSources(): (r: Result<seq<Json>>)
      ensures !json.JObject? ==> r == Err(AttributeError)
      ensures json.JObject? && Lookup(json.fields, "sources").None? ==> r == Ok([])
    {
      ListOf(json, "sources", "path")
    }

    /** `Target.get_type` */
    function GetType(): (r: Result<Json>)
      ensures !json.JObject? ==> r == Err(AttributeError)
      ensures json.JObject? && Lookup(json.fields, "type").None? ==> r == Ok(JNull)
      ensures json.JObject? && Lookup(json.fields, "type").Some? ==> r == Ok(Lookup(json.fields, "type").value)
    {
      Get(json, "type")
    }
  }

  /** The link record of a target whose fragments are all dictionaries holds, as flags, the
      "fragment" members of exactly the fragments whose role is "flags", in order, and likewise
      for "libraries". */
  lemma LinkSpec(t: Target, fragments: seq<Json>)
    requires t.json.JObject? && Lookup(t.json.fields, "link").Some?
    requires var link := Lookup(t.json.fields, "link").value;
      link.JObject? && Lookup(link.fields, "commandFragments") == Some(JArray(fragments))
    requires forall i :: 0 <= i < |fragments| ==> fragments[i].JObject?
    ensures t.GetLink().Ok?
    ensures ProjectAll(WithRole(fragments, "flags"), "fragment") == Ok(t.GetLink().value.flagsFragments)
    ensures ProjectAll(WithRole(fragments, "libraries"), "fragment") == Ok(t.GetLink().value.librariesFragments)
  {
    var link := Lookup(t.json.fields, "link").value;
    assert GetOr(t.json, "link", JObject([])) == Ok(link);
    assert GetOr(link, "commandFragments", JArray([])) == Ok(JArray(fragments));
    assert Iter(JArray(fragments)) == Ok(fragments);
    FragmentsWithRoleSpec(fragments, "flags");
    FragmentsWithRoleSpec(fragments, "libraries");
  }

  /** A target whose list member is a list of dictionaries gives one entry per element, in
      order: that element's `sub` member, or None where it has none. */
  lemma ListOfSpec(o: Json, key: string, sub: string, es: seq<Json>)
    requires o.JObject? && Lookup(o.fields, key) == Some(JArray(es))
    requires forall i :: 0 <= i < |es| ==> es[i].JObject?
    ensures ListOf(o, key, sub).Ok?
    ensures |ListOf(o, key, sub).value| == |es|
    ensures forall i :: 0 <= i < |es| ==> ListOf(o, key, sub).value[i] == Field(es[i], sub)
  {
    ProjectAllSpec(es, sub);
  }

  /** `CompilationDatabase.get_compilation_arguments` over the commands `getCompileCommands`
      returns for `filename`, or all commands when `filename` is None or empty: each file name
      maps to its command's arguments without the compiler and the input file; a file listed
      twice keeps its last command. */
  function CompilationArguments(commands: seq<CompileCommand>): (r: map<string, seq<string>>)
    ensures forall f :: f in r <==> exists i :: 0 <= i < |commands| && commands[i].filename == f
  {
    if commands == [] then map[]
    else
      var init, last := commands[..|commands| - 1], commands[|commands| - 1];
      assert forall i :: 0 <= i < |init| ==> init[i] == commands[i];
      CompilationArguments(init)[last.filename := StripCompilerAndInput(last.arguments)]
  }

  /** The entry of each file comes from the last command listed for it. */
  lemma {:induction false} CompilationArgumentsLastWins(commands: seq<CompileCommand>, i: nat)
    requires i < |commands|
    requires forall j :: i < j < |commands| ==> commands[j].filename != commands[i].filename
    ensures CompilationArguments(commands)[commands[i].filename] == StripCompilerAndInput(commands[i].arguments)
  {
    if i < |commands| - 1 {
      var init := commands[..|commands| - 1];
      assert forall j :: i < j < |init| ==> init[j] == commands[j];
      CompilationArgumentsLastWins(init, i);
    }
  }

  /** `commands[i]` is the last command for `filename`. */
  predicate LastCommandFor(commands: seq<CompileCommand>, filename: string, i: int) {
    0 <= i < |commands| && commands[i].filename == filename &&
    forall j :: i < j < |commands| ==> commands[j].filename != filename
  }

  /** Dropping the final command keeps an earlier last command for a file. */
  lemma LastCommandForInit(commands: seq<CompileCommand>, filename: string, i: int)
    requires LastCommandFor(commands, filename, i) && i < |commands| - 1
    ensures LastCommandFor(commands[..|commands| - 1], filename, i)
    ensures commands[|commands| - 1].filename != filename
  {
    assert forall j :: 0 <= j < |commands| - 1 ==> commands[..|commands| - 1][j] == commands[j];
  }

  /** The compilation database: the compile commands clang's loader found, in order. */
  datatype CompilationDatabase = CompilationDatabase(commands: seq<CompileCommand>) {

    /** `getCompileCommands(filename)`: the commands for that file, in database order. */
    function CommandsFor(filename: string): (r: seq<CompileCommand>)
      ensures forall c :: c in r <==> c in commands && c.filename == filename
      decreases |commands|
    {
      if commands == [] then []
      else
        var init, last := commands[..|commands| - 1], commands[|commands| - 1];
        var rest := CompilationDatabase(init).CommandsFor(filename);
        assert commands == init + [last];
        if last.filename == filename then rest + [last] else rest
    }

    /** `getCompileCommands(filename)`: libclang hands back a null handle, which its Python
        binding turns into None, when no command is for that file. */
    function GetCompileCommands(filename: string): (r: Option<seq<CompileCommand>>)
      ensures r.None? <==> forall j :: 0 <= j < |commands| ==> commands[j].filename != filename
      ensures r.Some? ==> r.value == CommandsFor(filename)
    {
      var selected := CommandsFor(filename);
      assert forall j :: 0 <= j < |commands| && commands[j].filename == filename ==> commands[j] in selected;
      if selected == [] then None
      else
        assert selected[0] in selected;
        Some(selected)
    }

    /** `getAllCompileCommands()`: None for a database without commands. */
    function GetAllCompileCommands(): (r: Option<seq<CompileCommand>>)
      ensures r.None? <==> commands == []
      ensures r.Some? ==> r.value == commands
    {
      if commands == [] then None else Some(commands)
    }

    /** No command for a file: nothing is selected for it, and `getCompileCommands` gives None. */
    lemma {:induction false} CommandsForNone(filename: string)
      requires forall j :: 0 <= j < |commands| ==> commands[j].filename != filename
      ensures CommandsFor(filename) == []
      ensures GetCompileCommands(filename) == None
      decreases |commands|
    {
      if commands != [] {
        var init := commands[..|commands| - 1];
        assert forall j :: 0 <= j < |init| ==> init[j] == commands[j];
        CompilationDatabase(init).CommandsForNone(filename);
      }
    }

    /** The last command for a file is the last of the commands selected for it. */
    lemma {:induction false} CommandsForLast(filename: string, i: nat)
      requires LastCommandFor(commands, filename, i)
      ensures CommandsFor(filename) != []
      ensures CommandsFor(filename)[|CommandsFor(filename)| - 1] == commands[i]
      decreases |commands|
    {
      var init := commands[..|commands| - 1];
      if i < |commands| - 1 {
        LastCommandForInit(commands, filename, i);
        CompilationDatabase(init).CommandsForLast(filename, i);
      }
    }

    /** With a file named, the map has at most that file, holding its last command's
        arguments without the compiler and the input file. */
    lemma SelectedArguments(filename: string, i: nat)
      requires LastCommandFor(commands, filename, i)
      ensures CompilationArguments(CommandsFor(filename)) == map[filename := StripCompilerAndInput(commands[i].arguments)]
    {
      var selected := CommandsFor(filename);
      CommandsForLast(filename, i);
      assert selected[|selected| - 1] in selected;
      CompilationArgumentsLastWins(selected, |selected| - 1);
      forall f | f in CompilationArguments(selected) ensures f == filename {
        var j :| 0 <= j < |selected| && selected[j].filename == f;
        assert selected[j] in selected;
      }
    }

    /** `CompilationDatabase.get_compilation_arguments(filename)`: the comprehension iterates
        what clang selected, and iterating None raises TypeError. */
    function GetCompilationArguments(filename: Option<string>): (r: Result<map<string, seq<string>>>)
      ensures r.Err? ==> r.error == TypeError
      ensures filename.None? || filename == Some("") ==> (r.Err? <==> commands == [])
      ensures (filename.None? || filename == Some("")) && commands != [] ==> r == Ok(CompilationArguments(commands))
      ensures filename.Some? && filename.value != "" ==>
        (r.Err? <==> forall i :: 0 <= i < |commands| ==> commands[i].filename != filename.value)
      ensures filename.Some? && filename.value != "" ==> forall i :: LastCommandFor(commands, filename.value, i) ==>
        r == Ok(map[filename.value := StripCompilerAndInput(commands[i].arguments)])
    {
      if filename.Some? && filename.value != "" then
        match GetCompileCommands(filename.value)
        case None => Err(TypeError)
        case Some(selected) =>
          assert forall i :: LastCommandFor(commands, filename.value, i) ==>
            CompilationArguments(selected) == map[filename.value := StripCompilerAndInput(commands[i].arguments)] by {
            forall i | LastCommandFor(commands, filename.value, i)
              ensures CompilationArguments(selected) == map[filename.value := StripCompilerAndInput(commands[i].arguments)]
            {
              SelectedArguments(filename.value, i);
            }
          }
          Ok(CompilationArguments(selected))
      else
        match GetAllCompileCommands()
        case None => Err(TypeError)
        case Some(all) => Ok(CompilationArguments(all))
    }
  }

  /** `self.targets` and the order its values are listed in. */
  datatype Registry = Registry(targets: map<Json, Target>, order: seq<Json>)

  /** A dictionary key must be hashable: lists and dictionaries are not. */
  predicate Hashable(k: Json) {
    !k.JArray? && !k.JObject?
  }

  /** Every target is filed under its own name, and the order lists each name once. */
  ghost predicate RegistryValid(reg: Registry) {
    && NoDuplicates(reg.order)
    && (forall k :: k in reg.targets <==> k in reg.order)
    && (forall k :: k in reg.targets ==> reg.targets[k].GetName() == Ok(k))
  }

  /** `self.targets[target_obj.get_name()] = target_obj` */
  function Register(reg: Registry, t: Target): (r: Result<Registry>)
    ensures r.Ok? <==> t.GetName().Ok? && Hashable(t.GetName().value)
    ensures r.Ok? ==> r.value.targets == reg.targets[t.GetName().value := t]
    ensures r.Ok? ==> |reg.order| <= |r.value.order| && r.value.order[..|reg.order|] == reg.order
  {
    match t.GetName()
    case Err(e) => Err(e)
    case Ok(name) =>
      if !Hashable(name) then Err(TypeError)
      else Ok(Registry(reg.targets[name := t], if name in reg.targets then reg.order else reg.order + [name]))
  }

  lemma RegisterValid(reg: Registry, t: Target)
    requires RegistryValid(reg) && Register(reg, t).Ok?
    ensures RegistryValid(Register(reg, t).value)
  {
    var r := Register(reg, t).value;
    var name := t.GetName().value;
    if name !in reg.targets {
      assert r.order == reg.order + [name];
      forall i, j | 0 <= i < j < |r.order| ensures r.order[i] != r.order[j] {
        if j == |reg.order| {
          assert r.order[i] == reg.order[i];
          assert reg.order[i] in reg.targets;
        }
      }
    }
  }

  /** `Target(Path(reply_dir, target["jsonFile"]))`: the entry must be a dictionary with a
      "jsonFile" member naming a file of the reply directory. */
  function LoadTarget(entry: Json, files: map<string, Json>): (r: Result<Target>)
    ensures !entry.JObject? ==> r == Err(TypeError)
    ensures entry.JObject? && Lookup(entry.fields, "jsonFile").None? ==> r == Err(KeyError("jsonFile"))
    ensures r.Ok? ==> (
      && entry.JObject? && Lookup(entry.fields, "jsonFile").Some?
      && Lookup(entry.fields, "jsonFile").value.JStr?
      && Lookup(entry.fields, "jsonFile").value.s in files
      && r.value == Target(files[Lookup(entry.fields, "jsonFile").value.s]))
    ensures entry.JObject? && Lookup(entry.fields, "jsonFile").Some? ==>
      var file := Lookup(entry.fields, "jsonFile").value;
      && (!file.JStr? ==> r == Err(TypeError))
      && (file.JStr? && file.s !in files ==> r == Err(FileNotFoundError))
      && (file.JStr? && file.s in files ==> r.Ok?)
  {
    if !entry.JObject? then Err(TypeError)
    else match Lookup(entry.fields, "jsonFile")
      case None => Err(KeyError("jsonFile"))
      case Some(file) =>
        if !file.JStr? then Err(TypeError)
        else if file.s !in files then Err(FileNotFoundError)
        else Ok(Target(files[file.s]))
  }

  /** The inner loop of `_set_targets_from_codemodel` over one configuration's targets. */
  function AddEntries(reg: Registry, entries: seq<Json>, files: map<string, Json>): Result<Registry> {
    if entries == [] then Ok(reg)
    else
      match AddEntries(reg, entries[..|entries| - 1], files)
      case Err(e) => Err(e)
      case Ok(r) =>
        match LoadTarget(entries[|entries| - 1], files)
        case Err(e) => Err(e)
        case Ok(t) => Register(r, t)
  }

  /** `configuration.get("targets", [])`, iterated. */
  function ConfigurationEntries(configuration: Json): Result<seq<Json>> {
    match GetOr(configuration, "targets", JArray([]))
    case Err(e) => Err(e)
    case Ok(x) => Iter(x)
  }

  /** The outer loop of `_set_targets_from_codemodel` over the configurations. */
  function AddConfigurations(reg: Registry, configurations: seq<Json>, files: map<string, Json>): Result<Registry> {
    if configurations == [] then Ok(reg)
    else
      match AddConfigurations(reg, configurations[..|configurations| - 1], files)
      case Err(e) => Err(e)
      case Ok(r) =>
        match ConfigurationEntries(configurations[|configurations| - 1])
        case Err(e) => Err(e)
        case Ok(entries) => AddEntries(r, entries, files)
  }

  /** `codemodel.get("configurations", [])`, iterated. */
  function CodemodelConfigurations(codemodel: Json): Result<seq<Json>> {
    match GetOr(codemodel, "configurations", JArray([]))
    case Err(e) => Err(e)
    case Ok(x) => Iter(x)
  }

  /** What `_set_targets_from_codemodel` makes of `self.targets`, starting from `reg`. */
  function FromCodemodel(reg: Registry, codemodel: Json, files: map<string, Json>): Result<Registry> {
    match CodemodelConfigurations(codemodel)
    case Err(e) => Err(e)
    case Ok(configurations) => AddConfigurations(reg, configurations, files)
  }

  /** Filling keeps every target under its own name, each name listed once. */
  lemma {:induction false} AddEntriesValid(reg: Registry, entries: seq<Json>, files: map<string, Json>)
    requires RegistryValid(reg) && AddEntries(reg, entries, files).Ok?
    ensures RegistryValid(AddEntries(reg, entries, files).value)
  {
    if entries != [] {
      AddEntriesValid(reg, entries[..|entries| - 1], files);
      RegisterValid(AddEntries(reg, entries[..|entries| - 1], files).value,
                    LoadTarget(entries[|entries| - 1], files).value);
    }
  }

  lemma {:induction false} AddConfigurationsValid(reg: Registry, configurations: seq<Json>, files: map<string, Json>)
    requires RegistryValid(reg) && AddConfigurations(reg, configurations, files).Ok?
    ensures RegistryValid(AddConfigurations(reg, configurations, files).value)
  {
    if configurations != [] {
      var init := configurations[..|configurations| - 1];
      AddConfigurationsValid(reg, init, files);
      AddEntriesValid(AddConfigurations(reg, init, files).value,
                      ConfigurationEntries(configurations[|configurations| - 1]).value, files);
    }
  }

  /** After a successful fill, the name of an entry's target holds the target of the last
      entry with that name: a later target overwrites an earlier one. */
  lemma {:induction false} AddEntriesLastWins(reg: Registry, entries: seq<Json>, files: map<string, Json>, i: nat)
    requires AddEntries(reg, entries, files).Ok? && i < |entries|
    requires forall j :: i < j < |entries| && LoadTarget(entries[j], files).Ok? && LoadTarget(entries[i], files).Ok? ==>
      LoadTarget(entries[j], files).value.GetName() != LoadTarget(entries[i], files).value.GetName()
    ensures LoadTarget(entries[i], files).Ok? && LoadTarget(entries[i], files).value.GetName().Ok?
    ensures LoadTarget(entries[i], files).value.GetName().value in AddEntries(reg, entries, files).value.targets
    ensures AddEntries(reg, entries, files).value.targets[LoadTarget(entries[i], files).value.GetName().value] ==
      LoadTarget(entries[i], files).value
  {
    AddEntriesLoads(reg, entries, files, i);
    var init := entries[..|entries| - 1];
    if i < |entries| - 1 {
      assert forall j :: 0 <= j < |init| ==> init[j] == entries[j];
      AddEntriesLastWins(reg, init, files, i);
      AddEntriesLoads(reg, entries, files, |entries| - 1);
    }
  }

  /** Every entry of a successful fill loads a target whose name is hashable. */
  lemma {:induction false} AddEntriesLoads(reg: Registry, entries: seq<Json>, files: map<string, Json>, i: nat)
    requires AddEntries(reg, entries, files).Ok? && i < |entries|
    ensures LoadTarget(entries[i], files).Ok?
    ensures LoadTarget(entries[i], files).value.GetName().Ok?
    ensures LoadTarget(entries[i], files).value.GetName().value in AddEntries(reg, entries, files).value.targets
    decreases |entries|
  {
    var init := entries[..|entries| - 1];
    if i < |entries| - 1 {
      assert init[i] == entries[i];
      AddEntriesLoads(reg, init, files, i);
    }
  }

  /** Filling only adds: an existing key stays a key. */
  lemma {:induction false} AddEntriesGrows(reg: Registry, entries: seq<Json>, files: map<string, Json>)
    requires AddEntries(reg, entries, files).Ok?
    ensures reg.targets.Keys <= AddEntries(reg, entries, files).value.targets.Keys
  {
    if entries != [] {
      AddEntriesGrows(reg, entries[..|entries| - 1], files);
    }
  }

  /** The name an entry's target is filed under, when the entry loads and names its target. */
  function LoadedName(entry: Json, files: map<string, Json>): Option<Json> {
    match LoadTarget(entry, files)
    case Err(_) => None
    case Ok(t) => if t.GetName().Ok? then Some(t.GetName().value) else None
  }

  /** The names the entries file their targets under, in order; None for an entry that
      does not load or name its target. */
  function Names(entries: seq<Json>, files: map<string, Json>): (r: seq<Option<Json>>)
    ensures |r| == |entries|
    ensures forall i :: 0 <= i < |entries| ==> r[i] == LoadedName(entries[i], files)
  {
    if entries == [] then []
    else
      var init := entries[..|entries| - 1];
      assert forall i :: 0 <= i < |init| ==> init[i] == entries[i];
      Names(init, files) + [LoadedName(entries[|entries| - 1], files)]
  }

  /** The `i`-th name is the last occurrence of `k`. */
  predicate LastFiledAt(names: seq<Option<Json>>, k: Json, i: int) {
    0 <= i < |names| && names[i] == Some(k) && forall j :: i < j < |names| ==> names[j] != Some(k)
  }

  /** The last step of a successful fill files the last entry's target under its name. */
  lemma AddEntriesSnoc(reg: Registry, entries: seq<Json>, files: map<string, Json>)
    requires entries != [] && AddEntries(reg, entries, files).Ok?
    ensures AddEntries(reg, entries[..|entries| - 1], files).Ok?
    ensures LoadTarget(entries[|entries| - 1], files).Ok? && LoadedName(entries[|entries| - 1], files).Some?
    ensures AddEntries(reg, entries, files).value.targets ==
      AddEntries(reg, entries[..|entries| - 1], files).value.targets[
        LoadedName(entries[|entries| - 1], files).value := LoadTarget(entries[|entries| - 1], files).value]
    ensures Names(entries, files) == Names(entries[..|entries| - 1], files) + [LoadedName(entries[|entries| - 1], files)]
  {
  }

  /** A successful fill is characterised exactly: its names are the old names and those of
      the loaded targets; a loaded name holds the target of the last entry filed under it,
      and any other name keeps its old target. */
  lemma AddEntriesTargets(reg: Registry, entries: seq<Json>, files: map<string, Json>)
    requires AddEntries(reg, entries, files).Ok?
    ensures forall k :: k in AddEntries(reg, entries, files).value.targets <==>
      k in reg.targets || Some(k) in Names(entries, files)
    ensures forall k, i :: LastFiledAt(Names(entries, files), k, i) ==>
      k in AddEntries(reg, entries, files).value.targets &&
      AddEntries(reg, entries, files).value.targets[k] == LoadTarget(entries[i], files).value
    ensures forall k :: k in reg.targets && Some(k) !in Names(entries, files) ==>
      AddEntries(reg, entries, files).value.targets[k] == reg.targets[k]
  {
    AddEntriesKeys(reg, entries, files);
    forall k, i | LastFiledAt(Names(entries, files), k, i)
      ensures k in AddEntries(reg, entries, files).value.targets &&
        AddEntries(reg, entries, files).value.targets[k] == LoadTarget(entries[i], files).value
    {
      AddEntriesLastFiled(reg, entries, files, k, i);
    }
    forall k | k in reg.targets && Some(k) !in Names(entries, files)
      ensures AddEntries(reg, entries, files).value.targets[k] == reg.targets[k]
    {
      AddEntriesUntouched(reg, entries, files, k);
    }
  }

  lemma {:induction false} AddEntriesKeys(reg: Registry, entries: seq<Json>, files: map<string, Json>)
    requires AddEntries(reg, entries, files).Ok?
    ensures forall k :: k in AddEntries(reg, entries, files).value.targets <==>
      k in reg.targets || Some(k) in Names(entries, files)
  {
    if entries != [] {
      var init := entries[..|entries| - 1];
      AddEntriesSnoc(reg, entries, files);
      AddEntriesKeys(reg, init, files);
    }
  }

  lemma {:induction false} AddEntriesLastFiled(reg: Registry, entries: seq<Json>, files: map<string, Json>, k: Json, i: int)
    requires AddEntries(reg, entries, files).Ok? && LastFiledAt(Names(entries, files), k, i)
    ensures k in AddEntries(reg, entries, files).value.targets
    ensures AddEntries(reg, entries, files).value.targets[k] == LoadTarget(entries[i], files).value
  {
    var init := entries[..|entries| - 1];
    AddEntriesSnoc(reg, entries, files);
    if i < |init| {
      assert init[i] == entries[i];
      assert LastFiledAt(Names(init, files), k, i);
      AddEntriesLastFiled(reg, init, files, k, i);
    }
  }

  lemma {:induction false} AddEntriesUntouched(reg: Registry, entries: seq<Json>, files: map<string, Json>, k: Json)
    requires AddEntries(reg, entries, files).Ok? && k in reg.targets && Some(k) !in Names(entries, files)
    ensures k in AddEntries(reg, entries, files).value.targets
    ensures AddEntries(reg, entries, files).value.targets[k] == reg.targets[k]
  {
    if entries != [] {
      var init := entries[..|entries| - 1];
      AddEntriesSnoc(reg, entries, files);
      AddEntriesUntouched(reg, init, files, k);
    }
  }

  /** The targets lists of the configurations, one after the other; reading a configuration's
      list can fail. */
  function EntriesOf(configurations: seq<Json>): Result<seq<Json>> {
    if configurations == [] then Ok([])
    else
      match EntriesOf(configurations[..|configurations| - 1])
      case Err(e) => Err(e)
      case Ok(init) =>
        match ConfigurationEntries(configurations[|configurations| - 1])
        case Err(e) => Err(e)
        case Ok(entries) => Ok(init + entries)
  }

  /** Filling from two lists one after the other is filling from their concatenation. */
  lemma {:induction false} AddEntriesAppend(reg: Registry, a: seq<Json>, b: seq<Json>, files: map<string, Json>)
    requires AddEntries(reg, a, files).Ok?
    ensures AddEntries(reg, a + b, files) == AddEntries(AddEntries(reg, a, files).value, b, files)
  {
    if b == [] {
      assert a + b == a;
    } else {
      var init := b[..|b| - 1];
      AddEntriesAppend(reg, a, init, files);
      assert (a + b)[..|a + b| - 1] == a + init;
      assert (a + b)[|a + b| - 1] == b[|b| - 1];
    }
  }

  /** The two nested loops file exactly what one loop over all configurations' targets, in
      order, files. */
  lemma {:induction false} AddConfigurationsFlat(reg: Registry, configurations: seq<Json>, files: map<string, Json>)
    requires AddConfigurations(reg, configurations, files).Ok?
    ensures EntriesOf(configurations).Ok?
    ensures AddConfigurations(reg, configurations, files) == AddEntries(reg, EntriesOf(configurations).value, files)
  {
    if configurations != [] {
      var init := configurations[..|configurations| - 1];
      AddConfigurationsFlat(reg, init, files);
      AddEntriesAppend(reg, EntriesOf(init).value, ConfigurationEntries(configurations[|configurations| - 1]).value, files);
    }
  }

  /** What `_set_targets_from_codemodel` leaves in `self.targets`, over all configurations: the
      old names and those of every loaded target; a name loaded in any configuration holds the
      target loaded last under it, in configuration order, and any other name keeps its old
      target. */
  lemma FromCodemodelTargets(reg: Registry, codemodel: Json, files: map<string, Json>)
    requires FromCodemodel(reg, codemodel, files).Ok?
    ensures CodemodelConfigurations(codemodel).Ok? && EntriesOf(CodemodelConfigurations(codemodel).value).Ok?
    ensures var names := Names(EntriesOf(CodemodelConfigurations(codemodel).value).value, files);
      var out := FromCodemodel(reg, codemodel, files).value.targets;
      && (forall k :: k in out <==> k in reg.targets || Some(k) in names)
      && (forall k :: k in reg.targets && Some(k) !in names ==> out[k] == reg.targets[k])
    ensures var entries := EntriesOf(CodemodelConfigurations(codemodel).value).value;
      var out := FromCodemodel(reg, codemodel, files).value.targets;
      forall k, i :: LastFiledAt(Names(entries, files), k, i) ==> k in out && out[k] == LoadTarget(entries[i], files).value
  {
    var configurations := CodemodelConfigurations(codemodel).value;
    AddConfigurationsFlat(reg, configurations, files);
    AddEntriesTargets(reg, EntriesOf(configurations).value, files);
  }

  /** `[x.split("::")[0] for x in ids]`: only strings have `split`. */
  function ScopePrefixes(ids: seq<Json>): (r: Result<seq<string>>)
    ensures r.Ok? <==> forall i :: 0 <= i < |ids| ==> ids[i].JStr?
    ensures r.Err? ==> r.error == AttributeError
    ensures r.Ok? ==> (|r.value| == |ids| &&
      forall i :: 0 <= i < |ids| ==> r.value[i] == BeforeScopeSeparator(ids[i].s))
  {
    if ids == [] then Ok([])
    else
      var rest := ScopePrefixes(ids[..|ids| - 1]);
      assert forall i :: 0 <= i < |ids| - 1 ==> ids[..|ids| - 1][i] == ids[i];
      if rest.Err? then rest
      else if !ids[|ids| - 1].JStr? then Err(AttributeError)
      else Ok(rest.value + [BeforeScopeSeparator(ids[|ids| - 1].s)])
  }

  /** `[t.get_name() for t in values if t.get_type() == "SHARED_LIBRARY"]` */
  function SharedLibraries(targets: map<Json, Target>, order: seq<Json>): (r: seq<Json>)
    requires forall k :: k in order ==> k in targets
  {
    if order == [] then []
    else
      var rest := SharedLibraries(targets, order[..|order| - 1]);
      var t := targets[order[|order| - 1]];
      if Field(t.json, "type") == JStr("SHARED_LIBRARY") then rest + [Field(t.json, "name")] else rest
  }

  /** The names listed are exactly the names of the shared-library targets, each once when
      the registry lists each name once. */
  lemma {:induction false} SharedLibrariesSpec(targets: map<Json, Target>, order: seq<Json>)
    requires forall k :: k in order ==> k in targets
    requires forall k :: k in targets ==> targets[k].GetName() == Ok(k)
    ensures forall x :: x in SharedLibraries(targets, order) <==>
      x in order && Field(targets[x].json, "type") == JStr("SHARED_LIBRARY")
    ensures NoDuplicates(order) ==> NoDuplicates(SharedLibraries(targets, order))
  {
    SharedLibrariesMembers(targets, order);
    if NoDuplicates(order) {
      SharedLibrariesUnique(targets, order);
    }
  }

  lemma {:induction false} SharedLibrariesMembers(targets: map<Json, Target>, order: seq<Json>)
    requires forall k :: k in order ==> k in targets
    requires forall k :: k in targets ==> targets[k].GetName() == Ok(k)
    ensures forall x :: x in SharedLibraries(targets, order) <==>
      x in order && Field(targets[x].json, "type") == JStr("SHARED_LIBRARY")
  {
    if order != [] {
      var init, last := order[..|order| - 1], order[|order| - 1];
      SharedLibrariesMembers(targets, init);
      assert order == init + [last];
      assert targets[last].GetName() == Ok(last);
    }
  }

  lemma {:induction false} SharedLibrariesUnique(targets: map<Json, Target>, order: seq<Json>)
    requires forall k :: k in order ==> k in targets
    requires forall k :: k in targets ==> targets[k].GetName() == Ok(k)
    requires NoDuplicates(order)
    ensures NoDuplicates(SharedLibraries(targets, order))
  {
    if order != [] {
      var init, last := order[..|order| - 1], order[|order| - 1];
      assert NoDuplicates(init) by {
        forall i, j | 0 <= i < j < |init| ensures init[i] != init[j] {
          assert init[i] == order[i] && init[j] == order[j];
        }
      }
      SharedLibrariesUnique(targets, init);
      SharedLibrariesMembers(targets, init);
      assert targets[last].GetName() == Ok(last);
      forall i | 0 <= i < |init| ensures init[i] != last {
        assert init[i] == order[i];
      }
    }
  }

  /** The CMake file API front end: the targets found in the codemodel, by name. */
  class CMakeFileAPI {
    var targets: map<Json, Target>
    var order: seq<Json>

    ghost predicate Valid()
      reads this
    {
      RegistryValid(Registry(targets, order))
    }

    constructor ()
      ensures Valid() && targets == map[] && order == []
    {
      targets := map[];
      order := [];
    }

    /** `CMakeFileAPI(build_dir)`, given the loaded codemodel and the loaded reply files by name. */
    static method New(codemodel: Json, files: map<string, Json>) returns (r: Result<CMakeFileAPI>)
      ensures r.Ok? <==> FromCodemodel(Registry(map[], []), codemodel, files).Ok?
      ensures r.Err? ==> r.error == FromCodemodel(Registry(map[], []), codemodel, files).error
      ensures r.Ok? ==> (fresh(r.value) && r.value.Valid() &&
        Registry(r.value.targets, r.value.order) == FromCodemodel(Registry(map[], []), codemodel, files).value)
    {
      var api := new CMakeFileAPI();
      var status := api.SetTargetsFromCodemodel(codemodel, files);
      if status.Err? {
        return Err(status.error);
      }
      return Ok(api);
    }

    /** The inner loop of `_set_targets_from_codemodel`: load each entry's target and file it,
        stopping at the first error. */
    static method RegisterEntries(reg: Registry, entries: seq<Json>, files: map<string, Json>)
      returns (r: Result<Registry>)
      ensures r == AddEntries(reg, entries, files)
    {
      var current := reg;
      var j := 0;
      while j < |entries|
        invariant 0 <= j <= |entries|
        invariant AddEntries(reg, entries[..j], files) == Ok(current)
      {
        assert entries[..j + 1][..j] == entries[..j];
        var target := LoadTarget(entries[j], files);
        if target.Err? {
          EntriesErrorPropagates(reg, entries, j + 1, files);
          return Err(target.error);
        }
        var registered := Register(current, target.value);
        if registered.Err? {
          EntriesErrorPropagates(reg, entries, j + 1, files);
          return Err(registered.error);
        }
        current := registered.value;
        j := j + 1;
      }
      assert entries[..j] == entries;
      r := Ok(current);
    }

    /** The loops of `_set_targets_from_codemodel`, on the registry as a value: for each
        configuration, for each of its targets, load the target's reply file and file it under
        its name. */
    static method RegisterConfigurations(start: Registry, codemodel: Json, files: map<string, Json>)
      returns (r: Result<Registry>)
      ensures r == FromCodemodel(start, codemodel, files)
    {
      var configurationsResult := CodemodelConfigurations(codemodel);
      if configurationsResult.Err? {
        return Err(configurationsResult.error);
      }
      var configurations := configurationsResult.value;
      var current := start;
      var i := 0;
      while i < |configurations|
        invariant 0 <= i <= |configurations|
        invariant AddConfigurations(start, configurations[..i], files) == Ok(current)
      {
        ConfigurationsStep(start, configurations, i, files, current);
        var entriesResult := ConfigurationEntries(configurations[i]);
        if entriesResult.Err? {
          return Err(entriesResult.error);
        }
        var added := RegisterEntries(current, entriesResult.value, files);
        if added.Err? {
          return Err(added.error);
        }
        current := added.value;
        i := i + 1;
      }
      assert configurations[..i] == configurations;
      r := Ok(current);
    }

    /** `CMakeFileAPI._set_targets_from_codemodel`: the targets become those the codemodel
        names, filed under their names, unless loading raises. */
    method SetTargetsFromCodemodel(codemodel: Json, files: map<string, Json>) returns (r: Result<()>)
      requires Valid()
      modifies this
      ensures Valid()
      ensures r.Ok? <==> FromCodemodel(old(Registry(targets, order)), codemodel, files).Ok?
      ensures r.Err? ==> r.error == FromCodemodel(old(Registry(targets, order)), codemodel, files).error
      ensures r.Ok? ==> Registry(targets, order) == FromCodemodel(old(Registry(targets, order)), codemodel, files).value
      ensures r.Err? ==> targets == old(targets) && order == old(order)
    {
      var filled := RegisterConfigurations(Registry(targets, order), codemodel, files);
      if filled.Err? {
        return Err(filled.error);
      }
      AddConfigurationsValid(Registry(targets, order), CodemodelConfigurations(codemodel).value, files);
      targets, order := filled.value.targets, filled.value.order;
      r := Ok(());
    }

    /** `CMakeFileAPI.get_library_targets` */
    function GetLibraryTargets(): (r: seq<Json>)
      requires Valid()
      reads this
      ensures forall x :: x in r <==> x in targets && Field(targets[x].json, "type") == JStr("SHARED_LIBRARY")
      ensures NoDuplicates(r)
    {
      SharedLibrariesSpec(targets, order);
      SharedLibraries(targets, order)
    }

    /** `CMakeFileAPI.get_dependencies(target)`: the dependency ids of the named target, each cut
        at its first "::". An unknown name gets None, whose missing method raises AttributeError. */
    function GetDependencies(target: Json): (r: Result<seq<string>>)
      reads this
      ensures !Hashable(target) ==> r == Err(TypeError)
      ensures Hashable(target) && target !in targets ==> r == Err(AttributeError)
      ensures r.Ok? ==> (
        && target in targets && targets[target].GetDependencies().Ok?
        && |r.value| == |targets[target].GetDependencies().value|
        && forall i :: 0 <= i < |r.value| ==>
             targets[target].GetDependencies().value[i].JStr? &&
             r.value[i] == BeforeScopeSeparator(targets[target].GetDependencies().value[i].s))
      ensures Hashable(target) && target in targets && targets[target].GetDependencies().Err? ==>
        r == Err(targets[target].GetDependencies().error)
      ensures Hashable(target) && target in targets && targets[target].GetDependencies().Ok? ==>
        var ids := targets[target].GetDependencies().value;
        (r.Ok? <==> forall i :: 0 <= i < |ids| ==> ids[i].JStr?) && (r.Err? ==> r == Err(AttributeError))
    {
      if !Hashable(target) then Err(TypeError)
      else if target !in targets then Err(AttributeError)
      else match targets[target].GetDependencies()
        case Err(e) => Err(e)
        case Ok(ids) => ScopePrefixes(ids)
    }

    /** `CMakeFileAPI.get_sources(target)` */
    function GetSources(target: Json): (r: Result<seq<Json>>)
      reads this
      ensures !Hashable(target) ==> r == Err(TypeError)
      ensures Hashable(target) && target !in targets ==> r == Err(AttributeError)
      ensures Hashable(target) && target in targets ==> r == targets[target].GetSources()
    {
      SourcesOf(Registry(targets, order), target)
    }
  }

  /** The sources of the target filed under `target`: `self.targets.get(target).get_sources()`.
      Looking up a list or dictionary raises TypeError; an unknown name gets None, whose
      missing method raises AttributeError. */
  function SourcesOf(reg: Registry, target: Json): (r: Result<seq<Json>>)
    ensures !Hashable(target) ==> r == Err(TypeError)
    ensures Hashable(target) && target !in reg.targets ==> r == Err(AttributeError)
    ensures Hashable(target) && target in reg.targets ==> r == reg.targets[target].GetSources()
  {
    if !Hashable(target) then Err(TypeError)
    else if target !in reg.targets then Err(AttributeError)
    else reg.targets[target].GetSources()
  }

  lemma {:induction false} EntriesErrorPropagates(reg: Registry, entries: seq<Json>, n: nat, files: map<string, Json>)
    requires 0 < n <= |entries|
    requires AddEntries(reg, entries[..n - 1], files).Ok?
    requires var r := AddEntries(reg, entries[..n - 1], files).value;
      LoadTarget(entries[n - 1], files).Err? ||
      Register(r, LoadTarget(entries[n - 1], files).value).Err?
    ensures AddEntries(reg, entries, files).Err?
    ensures AddEntries(reg, entries, files).error ==
      var r := AddEntries(reg, entries[..n - 1], files).value;
      if LoadTarget(entries[n - 1], files).Err? then LoadTarget(entries[n - 1], files).error
      else Register(r, LoadTarget(entries[n - 1], files).value).error
    decreases |entries| - n
  {
    assert entries[..n][..n - 1] == entries[..n - 1];
    PrefixErrorEntries(reg, entries, n, files);
  }

  lemma {:induction false} PrefixErrorEntries(reg: Registry, entries: seq<Json>, n: nat, files: map<string, Json>)
    requires n <= |entries| && AddEntries(reg, entries[..n], files).Err?
    ensures AddEntries(reg, entries, files) == AddEntries(reg, entries[..n], files)
    decreases |entries| - n
  {
    if n < |entries| {
      assert entries[..n + 1][..n] == entries[..n];
      PrefixErrorEntries(reg, entries, n + 1, files);
    } else {
      assert entries[..n] == entries;
    }
  }

  lemma {:induction false} ConfigurationsErrorPropagates(reg: Registry, configurations: seq<Json>, n: nat, files: map<string, Json>)
    requires 0 < n <= |configurations|
    requires AddConfigurations(reg, configurations[..n], files).Err?
    ensures AddConfigurations(reg, configurations, files) == AddConfigurations(reg, configurations[..n], files)
    decreases |configurations| - n
  {
    if n < |configurations| {
      assert configurations[..n + 1][..n] == configurations[..n];
      ConfigurationsErrorPropagates(reg, configurations, n + 1, files);
    } else {
      assert configurations[..n] == configurations;
    }
  }

  /** One more configuration: the outer loop either stops with the error of reading its
      targets or of filing them, or goes on from the registry they leave. */
  lemma ConfigurationsStep(reg: Registry, configurations: seq<Json>, i: nat, files: map<string, Json>, current: Registry)
    requires i < |configurations| && AddConfigurations(reg, configurations[..i], files) == Ok(current)
    ensures ConfigurationEntries(configurations[i]).Err? ==>
      AddConfigurations(reg, configurations, files) == Err(ConfigurationEntries(configurations[i]).error)
    ensures ConfigurationEntries(configurations[i]).Ok? ==>
      var added := AddEntries(current, ConfigurationEntries(configurations[i]).value, files);
      (added.Err? ==> AddConfigurations(reg, configurations, files) == Err(added.error)) &&
      (added.Ok? ==> AddConfigurations(reg, configurations[..i + 1], files) == added)
  {
    assert configurations[..i + 1][..i] == configurations[..i];
    if AddConfigurations(reg, configurations[..i + 1], files).Err? {
      ConfigurationsErrorPropagates(reg, configurations, i + 1, files);
    }
  }
}
