# clang-bind core, modelled in Dafny

clang-bind generates Python bindings for C++ libraries. It reads a CMake build tree to find the
library targets and their sources. It parses each `.cpp` source with clang's Python front end,
keeping only the AST nodes that belong to that file, and collects the introspectable features
of every cursor.

This project models the deterministic core of that pipeline and proves properties of it:

- `clang.dfy` (module `Clang`): the front end as data.
  - A `Cursor` carries its kind, spelling, file, line and column, its tokens, three reflected
    facets and its children in front-end order.
  - A `TranslationUnit` is a unit's file name and root cursor.
  - A `CompileCommand` is one compilation database entry.
  - Also here: the `[1:-1]` argument rule and the "node is from this file" filter.
- `clang_utils.dfy` (module `ClangUtils`): `getmembers_static` and the `ClangUtils` reflector.
  - The reflector splits an object's members into `is_*` functions, `get_*` functions and
    properties.
  - It skips the ignore list and drops every member whose evaluation raises.
- `tree_parse.dfy` (module `TreeParse`): `clang_bind/parse.py`.
  - The treelib tree is an arena: a sequence of nodes, each with its cursor, its
    `KIND:'spelling'` tag and the index of its parent.
  - `_construct_tree` appends nodes in creation order.
- `record_parse.dfy` (module `RecordParse`): `bindings/python/scripts/parse.py`. It builds the
  nested `members` records with their `depth`, normalises three entries of each record, and
  applies the `[1:-1]` rule to the compile commands.
- `cmake_frontend.dfy` (module `CMakeFrontend`): `clang_bind/cmake_frontend.py`.
  - The loaded JSON is a `Json` datatype. Objects keep their key order, and the last of
    several equal keys wins.
  - It has the `Target.get_*` projections, the compilation database's argument map, and the
    `CMakeFileAPI` registry: filled from the codemodel, then queried for library targets,
    dependencies and sources.
- `bind.dfy` (module `Binding`): `clang_bind/bind.py`.
  - The binding database: which targets are bound, each target's `.cpp` files and their
    compile arguments, and its inclusion sources.
  - The parse step, which gives every file a tree.
- `strings.dfy`, `wrappers.dfy`: the Python `str` and `list` operations used, `Option`,
  `Result`, and the Python exceptions that escape (`TypeError`, `AttributeError`, `KeyError`,
  `NotImplementedError`, `FileNotFoundError`).

## How the model is built

A Python exception becomes an `Err` of `Result`. A constructor that can raise becomes a
static `New` method returning `Result`: `CMakeFileAPI.New` and `Bind.New`.

Code that updates an object step by step is a class with those fields and `modifies` clauses:
- `TreeParse.Parse` holds the arena tree.
- `RecordParse.Parse` holds the root record.
- `CMakeFileAPI` holds its targets dictionary.
- `Bind` holds the binding database.

Each such method is proved equal to a specification function: `Forest`, `Parsed`,
`FromCodemodel`, `Plan` or `ParsedDb`. The properties are proved as lemmas about those
functions.

A Python dictionary whose insertion order matters is a `map` plus a sequence of its keys in
insertion order. The `targets` dictionary is one; `get_library_targets` lists its values in
that order.

`Bind` takes the `CMakeFileAPI` object and the compilation database as parameters. The
Python code builds a fresh object from the build directory each time, and each build reads
the same files.

## Model

| member | source | states |
|---|---|---|
| Strings.LessIrreflexive | clang_bind/clang_utils.py:36 | the name order used by the sort never puts a name before itself |
| Strings.LessTransitive | clang_bind/clang_utils.py:36 | the name order is transitive |
| Strings.LessTotal | clang_bind/clang_utils.py:36 | two different names are always ordered one way or the other |
| Strings.LessAsymmetric | clang_bind/clang_utils.py:36 | two names are never ordered both ways |
| Strings.Dedup | clang_bind/bind.py:43-45 | `list(set(xs))` holds exactly the elements of `xs`, each once, and is no longer than `xs` |
| Strings.BeforeScopeSeparator | clang_bind/cmake_frontend.py:255 | `split("::")[0]` is a prefix of the id that ends before the FIRST "::": no "::" starts inside it, a "::" follows it when it is shorter, and an id without "::" is returned whole |
| Clang.StripCompilerAndInput | clang_bind/cmake_frontend.py:37 | the first and last argument are dropped and the middle is kept in order; two or fewer arguments leave nothing |
| Clang.AcceptedMembers | clang_bind/parse.py:45-56 | a child cursor is kept iff it is one of the children and has a location file whose name is the unit's file name; a cursor without a file is rejected |
| ClangUtils.InsertByName | clang_bind/clang_utils.py:36 | inserting a member into the sorted results adds exactly that member |
| ClangUtils.SortedCons | clang_bind/clang_utils.py:36 | a member not greater than any of a sorted list can go first |
| ClangUtils.InsertKeepsSorted | clang_bind/clang_utils.py:36 | insertion keeps the results sorted by name |
| ClangUtils.SortByNameSorts | clang_bind/clang_utils.py:36 | `results.sort(key=name)` orders by name and is a permutation of its input |
| ClangUtils.SelectCounts | clang_bind/clang_utils.py:32-35 | with a predicate, every copy of a member whose value satisfies it is kept, and no copy of any other |
| ClangUtils.GetMembersStatic | clang_bind/clang_utils.py:19-37 | the loop appends the members that pass the predicate, then sorts them by name |
| ClangUtils.MembersSortedAndSelected | clang_bind/clang_utils.py:32-36 | `getmembers_static` returns pairs sorted by name, holding exactly the members that satisfy the predicate (all of them without one) |
| ClangUtils.Merged | bindings/python/scripts/parse.py:58-72 | unpacking the three dictionaries gives a key iff one of them has it; its value is the properties entry, else the get-functions entry, else the check-functions entry (a later dictionary wins) |
| ClangUtils.Reflect | clang_bind/clang_utils.py:59-96 | an object that is not a CursorKind, Cursor or Type raises NotImplementedError; otherwise the loop over the sorted members fills the three dictionaries as `Classify` does |
| ClangUtils.SelectAll | clang_bind/clang_utils.py:34 | without a predicate every member is kept, in order |
| ClangUtils.PrefixesExclusive | clang_bind/clang_utils.py:86-89 | no name starts with both "is_" and "get_", so a function lands in at most one dictionary |
| ClangUtils.ReturningSnoc | clang_bind/clang_utils.py:83-96 | one more member adds exactly that member's name to the members that evaluate without raising |
| ClangUtils.ClassifyKeys | clang_bind/clang_utils.py:72-96 | `check_functions_dict` has a key iff some non-ignored function of that name starts with "is_" and does not raise; likewise `get_functions_dict` with "get_"; `properties_dict` has a key iff some non-ignored property of that name reads without raising |
| ClangUtils.ClassifyValues | clang_bind/clang_utils.py:83-96 | with unique names, a function stores the value it returns and a property the value it reads; a member that raises is in no dictionary, and processing goes on |
| ClangUtils.IgnoredAndUnprefixedAbsent | clang_bind/clang_utils.py:72-89 | the four ignored names are in no dictionary; every `check_functions_dict` key starts with "is_" and every `get_functions_dict` key with "get_"; a function with neither prefix is recorded nowhere |
| TreeParse.Parse.constructor | clang_bind/parse.py:26-43 | the tree starts with the root node alone: the unit's cursor, tagged `KIND:'spelling'`; the filename is the unit's spelling |
| TreeParse.Parse.CreateNode | clang_bind/parse.py:64-68 | `create_node` appends one node under the given parent with the cursor's tag |
| TreeParse.Parse.ConstructTree | clang_bind/parse.py:58-70 | the recursion appends exactly the `Forest` of the node's children: accepted children in `get_children` order, each followed by its own subtree |
| TreeParse.Parse.GetTree | clang_bind/parse.py:72-77 | `get_tree` builds the root's forest and returns the tree |
| TreeParse.ParseAndGetTree | clang_bind/parse.py:26-77 | a fresh parser's `get_tree` yields `BuiltTree`: the root then the forest of its children |
| TreeParse.ForestShape | clang_bind/parse.py:63-70 | every created node is an accepted cursor with its tag, and its parent is the node whose cursor reported it |
| TreeParse.ChildCursorsAppend | clang_bind/parse.py:64-69 | the children of a node in two appended parts of the tree are its children in the first, then in the second |
| TreeParse.ChildCursorsNone | clang_bind/parse.py:64-69 | a node that no entry names as parent has no children |
| TreeParse.ForestNoChildren | clang_bind/parse.py:63-70 | a forest gives no children to any node outside it other than its parent |
| TreeParse.SubtreeParentChildren | clang_bind/parse.py:64-70 | one child's subtree gives its parent that child if it is accepted, else nothing; a rejected cursor's whole subtree is absent |
| TreeParse.SubtreeNoChildren | clang_bind/parse.py:64-70 | one child's subtree gives no children to any earlier node except its parent |
| TreeParse.ForestParentChildren | clang_bind/parse.py:63-70 | the children attached under the parent are exactly its accepted children, in `get_children` order |
| TreeParse.ForestNodeChildren | clang_bind/parse.py:63-70 | every node created in the forest gets exactly its own accepted children, in order |
| TreeParse.SubtreeNodeChildren | clang_bind/parse.py:63-70 | every node of one child's subtree gets exactly its own accepted children, in order |
| TreeParse.BuiltTreeWellFormed | clang_bind/parse.py:39-70 | the root is the unit's cursor and has no parent; every other node has exactly one earlier parent whose cursor reported it, lies in the root file, and is tagged `KIND:'spelling'` |
| TreeParse.BuiltTreeChildren | clang_bind/parse.py:58-77 | in the finished tree every node's children are exactly its accepted child cursors, in front-end order |
| TreeParse.TagRoundTrip | clang_bind/parse.py:17-18 | a tag `KIND:'spelling'` splits back into the kind and the spelling when the kind has no colon |
| TreeParse.TagRoundTripFrom | clang_bind/parse.py:17-18 | the split inverts the tag format for any kind without a colon and any spelling |
| RecordParse.Replace | bindings/python/scripts/parse.py:76-86 | `d[key] = f(d[key])` raises KeyError for a missing key and passes on `f`'s error; when `f` succeeds it always succeeds and replaces just that entry |
| RecordParse.MembersErrorPropagates | bindings/python/scripts/parse.py:118-122 | once a child's record raises, the whole member loop raises the same error |
| RecordParse.MembersStep | bindings/python/scripts/parse.py:118-122 | one more child is skipped when not from the file, appended when its record succeeds, and otherwise stops the loop with its error |
| RecordParse.Parse.constructor | bindings/python/scripts/parse.py:13-33 | the root record holds the unit's cursor, the unit's spelling as filename, and depth 0 |
| RecordParse.Parse.GetParsedNode | bindings/python/scripts/parse.py:44-88 | the record of one node is `ParsedNode`: merged features, normalised, with empty members |
| RecordParse.Parse.ParseNodeRecursive | bindings/python/scripts/parse.py:90-124 | the loop over the children yields `Parsed`: the node's record with the records of its accepted children appended in order |
| RecordParse.Parse.GetParsedInfo | bindings/python/scripts/parse.py:126-135 | the parsed information is `Parsed` of the root cursor at depth 0 against the root filename |
| RecordParse.GetCompilationArguments | bindings/python/scripts/parse.py:138-162 | TypeError iff clang selected no commands (its `getCompileCommands` gives None, see CMakeFrontend.CompilationDatabase.GetCompileCommands); otherwise one argument list per selected command, in order, each with its first (compiler) and last (input file) element removed |
| RecordParse.ParsedDepths | bindings/python/scripts/parse.py:113-122 | every record nested at any level has depth one more than its parent's |
| RecordParse.MembersDepths | bindings/python/scripts/parse.py:118-122 | every member record produced at depth d, and all records nested in it, follow the depth rule |
| RecordParse.MembersAreAcceptedChildren | bindings/python/scripts/parse.py:118-122 | `members` holds exactly the accepted children's records, one each, in child order, all built against the same root filename |
| RecordParse.MembersSucceed | bindings/python/scripts/parse.py:118-122 | the member loop succeeds iff every accepted child's record succeeds |
| RecordParse.ParsedSucceeds | bindings/python/scripts/parse.py:111-124 | a node's parse succeeds iff its own record and those of all accepted children succeed |
| RecordParse.NormalisedCursorSpec | bindings/python/scripts/parse.py:76-84 | a missing `result_type` or `access_specifier` raises KeyError and a value without `.spelling`/`.name` raises AttributeError; otherwise `result_type` becomes its spelling, `access_specifier` its enum name, and every other entry is unchanged |
| RecordParse.ParsedNodeFields | bindings/python/scripts/parse.py:53-88 | a record carries the node's depth, line, column and tokens, empty members, the merged kind features, the normalised cursor features, and the type features with `kind` replaced by its name |
| CMakeFrontend.Lookup | clang_bind/cmake_frontend.py:59 | a key is absent iff no field has it |
| CMakeFrontend.LookupLast | clang_bind/cmake_frontend.py:59 | a found value is the value of the LAST field with that key, as a JSON object loaded into a dict keeps |
| CMakeFrontend.Keys | clang_bind/cmake_frontend.py:59 | the keys of an object, each listed once, are exactly the keys a lookup finds |
| CMakeFrontend.GetOr | clang_bind/cmake_frontend.py:59 | `.get(key, default)` raises AttributeError on a non-object, gives the default for an absent key, and the stored value otherwise |
| CMakeFrontend.Get | clang_bind/cmake_frontend.py:126 | `.get(key)` raises AttributeError on a non-object and gives the stored value or None |
| CMakeFrontend.Iter | clang_bind/cmake_frontend.py:59 | iterating None, a boolean or a number raises TypeError; a list gives its items, an object its keys (each once) as strings, and a string its one-character strings, in order |
| CMakeFrontend.ListOf | clang_bind/cmake_frontend.py:59 | a list getter raises AttributeError on a non-object and gives an empty list when the key is absent |
| CMakeFrontend.ProjectAllSpec | clang_bind/cmake_frontend.py:59 | `[e.get(key) for e in es]` succeeds iff every element is an object, and then yields each element's value in order; otherwise AttributeError |
| CMakeFrontend.CompileGroupsSpec | clang_bind/cmake_frontend.py:75-92 | one record per compile group, in order, with its fragments, defines and includes (empty when missing) and its language |
| CMakeFrontend.FragmentsWithRoleSpec | clang_bind/cmake_frontend.py:150-161 | the filtered comprehension succeeds iff every fragment is an object, and then projects exactly the fragments of that role |
| CMakeFrontend.WithRoleAppend | clang_bind/cmake_frontend.py:152-161 | the role filter keeps fragment order: it distributes over concatenation |
| CMakeFrontend.FlagsAndLibrariesDisjoint | clang_bind/cmake_frontend.py:150-161 | every flags fragment has role "flags" and every libraries fragment role "libraries"; no fragment is in both, so other roles appear in neither |
| CMakeFrontend.Target.GetArtifacts | clang_bind/cmake_frontend.py:53-59 | AttributeError on a non-object target; an empty list when `artifacts` is absent |
| CMakeFrontend.Target.GetCommands | clang_bind/cmake_frontend.py:61-67 | AttributeError on a non-object target; None when `backtraceGraph` is absent; when present, AttributeError if it is not an object, otherwise its `commands` entry (or None) |
| CMakeFrontend.Target.GetCompileGroups | clang_bind/cmake_frontend.py:69-92 | AttributeError on a non-object target; an empty list when `compileGroups` is absent |
| CMakeFrontend.Target.GetDependencies | clang_bind/cmake_frontend.py:94-102 | AttributeError on a non-object target; an empty list when `dependencies` is absent |
| CMakeFrontend.Target.GetFiles | clang_bind/cmake_frontend.py:104-110 | AttributeError on a non-object target; None when `backtraceGraph` is absent; when present, AttributeError if it is not an object, otherwise its `files` entry (or None) |
| CMakeFrontend.Target.GetFolder | clang_bind/cmake_frontend.py:112-118 | AttributeError on a non-object target; None when `folder` is absent; when present, AttributeError if it is not an object, otherwise its `name` entry (or None) |
| CMakeFrontend.Target.GetId | clang_bind/cmake_frontend.py:120-126 | AttributeError on a non-object target; None when `id` is absent, and the stored value when it is present |
| CMakeFrontend.Target.GetInstall | clang_bind/cmake_frontend.py:128-141 | AttributeError on a non-object target; no destinations and no prefix when `install` is absent |
| CMakeFrontend.Target.GetLink | clang_bind/cmake_frontend.py:143-163 | AttributeError on a non-object target; no fragments and no language when `link` is absent |
| CMakeFrontend.Target.GetName | clang_bind/cmake_frontend.py:165-171 | AttributeError on a non-object target; None when `name` is absent, and the stored value when it is present |
| CMakeFrontend.Target.GetNameOnDisk | clang_bind/cmake_frontend.py:173-179 | AttributeError on a non-object target; None when `nameOnDisk` is absent, and the stored value when it is present |
| CMakeFrontend.Target.GetPaths | clang_bind/cmake_frontend.py:181-187 | AttributeError on a non-object target; None when `paths` is absent, and the stored value when it is present |
| CMakeFrontend.Target.GetSources | clang_bind/cmake_frontend.py:189-195 | AttributeError on a non-object target; an empty list when `sources` is absent |
| CMakeFrontend.Target.GetType | clang_bind/cmake_frontend.py:197-203 | AttributeError on a non-object target; None when `type` is absent, and the stored value when it is present |
| CMakeFrontend.LinkSpec | clang_bind/cmake_frontend.py:143-163 | `flags_fragments` holds exactly the fragments with role "flags", and `libraries_fragments` those with role "libraries", each in order |
| CMakeFrontend.ListOfSpec | clang_bind/cmake_frontend.py:53-59 | a list getter over a list of objects yields each object's entry, in order |
| CMakeFrontend.CompilationArguments | clang_bind/cmake_frontend.py:36-39 | the map has a key iff some command is for that file |
| CMakeFrontend.CompilationArgumentsLastWins | clang_bind/cmake_frontend.py:36-39 | a file's arguments are those of its last command, with compiler and input file dropped |
| CMakeFrontend.CompilationDatabase.CommandsFor | clang_bind/cmake_frontend.py:29-31 | the commands for a file are exactly the database's commands with that filename |
| CMakeFrontend.CompilationDatabase.GetCompileCommands | clang_bind/cmake_frontend.py:29-31 | None iff no command is for the file; otherwise the commands for it, in database order |
| CMakeFrontend.CompilationDatabase.GetAllCompileCommands | clang_bind/cmake_frontend.py:34 | None iff the database has no command; otherwise all its commands |
| CMakeFrontend.CompilationDatabase.CommandsForNone | clang_bind/cmake_frontend.py:29-31 | a file with no command selects nothing, and `getCompileCommands` gives None for it |
| CMakeFrontend.CompilationDatabase.CommandsForLast | clang_bind/cmake_frontend.py:29-31 | the commands for a file end with the last database command for that file |
| CMakeFrontend.CompilationDatabase.SelectedArguments | clang_bind/cmake_frontend.py:27-39 | the comprehension over one file's commands maps that file alone to its last command's arguments without the first and last element |
| CMakeFrontend.CompilationDatabase.GetCompilationArguments | clang_bind/cmake_frontend.py:18-39 | TypeError (from iterating None) iff nothing is selected: an empty database when no (or an empty) filename is given, a file without a command otherwise; with no filename every command is used, and a file that has a command maps alone to its last command's `arguments[1:-1]` |
| CMakeFrontend.Register | clang_bind/cmake_frontend.py:233 | filing a target succeeds iff its name can be read and hashed; it sets that key, and the earlier insertion order is kept |
| CMakeFrontend.RegisterValid | clang_bind/cmake_frontend.py:233 | after filing a target every target is still keyed by its own name and each name is listed once |
| CMakeFrontend.LoadTarget | clang_bind/cmake_frontend.py:230-232 | a non-object entry raises TypeError, a missing `jsonFile` KeyError, a non-string `jsonFile` TypeError and an absent reply file FileNotFoundError; otherwise it always loads the reply file the entry names |
| CMakeFrontend.AddEntriesValid | clang_bind/cmake_frontend.py:230-233 | the loop over one configuration's targets keeps every target keyed by its name |
| CMakeFrontend.AddConfigurationsValid | clang_bind/cmake_frontend.py:227-233 | the loop over all configurations keeps every target keyed by its name |
| CMakeFrontend.AddEntriesLastWins | clang_bind/cmake_frontend.py:227-233 | a target is filed under its name, and a later target with the same name overwrites it |
| CMakeFrontend.AddEntriesLoads | clang_bind/cmake_frontend.py:230-233 | when the loop succeeds every entry's target was loaded, named and filed |
| CMakeFrontend.AddEntriesGrows | clang_bind/cmake_frontend.py:230-233 | the loop never removes a target name |
| CMakeFrontend.Names | clang_bind/cmake_frontend.py:230-233 | one slot per entry, holding the name its target is filed under (none when loading fails) |
| CMakeFrontend.AddEntriesSnoc | clang_bind/cmake_frontend.py:230-233 | a successful loop over entries succeeded on all but the last, which loaded a named target and was filed last |
| CMakeFrontend.AddEntriesKeys | clang_bind/cmake_frontend.py:230-233 | after the loop a name is filed iff it was filed before or some entry's target has it |
| CMakeFrontend.AddEntriesLastFiled | clang_bind/cmake_frontend.py:230-233 | a name is filed with the target of the LAST entry carrying it |
| CMakeFrontend.AddEntriesUntouched | clang_bind/cmake_frontend.py:230-233 | a name no entry carries keeps its old target |
| CMakeFrontend.AddEntriesTargets | clang_bind/cmake_frontend.py:230-233 | the loop over entries files old names plus loaded names, each loaded name with its last target, every other name unchanged |
| CMakeFrontend.AddEntriesAppend | clang_bind/cmake_frontend.py:227-233 | running the loop over two lists of entries in turn is running it over their concatenation |
| CMakeFrontend.AddConfigurationsFlat | clang_bind/cmake_frontend.py:227-233 | the nested loop over configurations files the targets as one loop over all their entries, in order |
| CMakeFrontend.FromCodemodelTargets | clang_bind/cmake_frontend.py:227-233 | across all configurations, the filed names are the old ones plus every loaded name; each loaded name holds the target of the last entry with that name, and every other name keeps its old target |
| CMakeFrontend.ScopePrefixes | clang_bind/cmake_frontend.py:254-256 | each dependency id is cut at its first "::", in order; a non-string id raises AttributeError |
| CMakeFrontend.SharedLibrariesSpec | clang_bind/cmake_frontend.py:241-244 | the library targets are exactly the filed names whose type is "SHARED_LIBRARY", each once |
| CMakeFrontend.SharedLibrariesMembers | clang_bind/cmake_frontend.py:241-244 | a name is listed iff it is a filed target whose type is "SHARED_LIBRARY" |
| CMakeFrontend.SharedLibrariesUnique | clang_bind/cmake_frontend.py:241-244 | with each target filed once, no name is listed twice |
| CMakeFrontend.CMakeFileAPI.constructor | clang_bind/cmake_frontend.py:215 | the targets dictionary starts empty |
| CMakeFrontend.CMakeFileAPI.New | clang_bind/cmake_frontend.py:213-216 | construction succeeds iff filling from the codemodel does, and the targets are then `FromCodemodel` |
| CMakeFrontend.CMakeFileAPI.RegisterEntries | clang_bind/cmake_frontend.py:230-233 | the inner loop over one configuration's targets files them as `AddEntries` does, or raises its error |
| CMakeFrontend.CMakeFileAPI.RegisterConfigurations | clang_bind/cmake_frontend.py:227-233 | the outer loop over the configurations fills the registry as `FromCodemodel` does, or raises its error |
| CMakeFrontend.CMakeFileAPI.SetTargetsFromCodemodel | clang_bind/cmake_frontend.py:227-233 | the targets become `FromCodemodel` of the old ones, each keyed by its name, or the call raises the same error and leaves them unchanged |
| CMakeFrontend.CMakeFileAPI.GetLibraryTargets | clang_bind/cmake_frontend.py:235-244 | the names returned are exactly those of targets whose type is "SHARED_LIBRARY", each once |
| CMakeFrontend.CMakeFileAPI.GetDependencies | clang_bind/cmake_frontend.py:246-256 | an unhashable name raises TypeError and an unknown one AttributeError; a known target passes on its `get_dependencies()` error, then succeeds iff every id is a string (AttributeError otherwise), giving each id cut at its first "::", in order |
| CMakeFrontend.CMakeFileAPI.GetSources | clang_bind/cmake_frontend.py:258-266 | an unhashable name raises TypeError and an unknown one AttributeError; otherwise the target's sources |
| CMakeFrontend.SourcesOf | clang_bind/cmake_frontend.py:266 | the same lookup on the registry as a value |
| CMakeFrontend.EntriesErrorPropagates | clang_bind/cmake_frontend.py:230-233 | a target that fails to load or to be filed stops the loop with its error |
| CMakeFrontend.PrefixErrorEntries | clang_bind/cmake_frontend.py:230-233 | an error in a prefix of the entries is the loop's error |
| CMakeFrontend.ConfigurationsErrorPropagates | clang_bind/cmake_frontend.py:227-233 | an error in a prefix of the configurations is the loop's error |
| CMakeFrontend.ConfigurationsStep | clang_bind/cmake_frontend.py:227-233 | one configuration either stops the loop with the error of reading or filing its targets, or moves the loop on to the registry they leave |
| Binding.SourceStrings | clang_bind/bind.py:40-42 | the `.endswith` filter succeeds iff every source is a string (AttributeError otherwise), and keeps all of them in order |
| Binding.FilteredAppend | clang_bind/bind.py:40-42 | the suffix filter distributes over concatenation |
| Binding.FilteredMembers | clang_bind/bind.py:40-45 | the filter keeps exactly the sources with (or without) the ".cpp" suffix |
| Binding.CppSourcesSpec | clang_bind/bind.py:50-52 | the `.cpp` sources are exactly the sources ending in ".cpp", in source order |
| Binding.HeadersSpec | clang_bind/bind.py:53-57 | a target's own inclusion sources are, as a set, its sources not ending in ".cpp", each once |
| Binding.AllInclusionSourcesSucceed | clang_bind/bind.py:37-45 | gathering the inclusion sources succeeds iff every library target's sources can be read |
| Binding.AllInclusionSourcesMembers | clang_bind/bind.py:37-45 | the gathered list holds exactly the non-`.cpp` sources of the library targets |
| Binding.BindingDbSpec | clang_bind/bind.py:47-72 | the database is filled iff every bound target's sources can be read and each of their `.cpp` sources has a compile command; it then has exactly one entry per bound target, keyed by its name |
| Binding.FileEntries | clang_bind/bind.py:63-71 | the `files` comprehension succeeds iff every `.cpp` source's arguments can be read, raising TypeError otherwise; then one entry per source, in order, with its arguments and no tree |
| Binding.FileEntriesSucceed | clang_bind/bind.py:63-71 | the `files` list of a target can be built iff every one of its `.cpp` sources has a compile command |
| Binding.PlanTargets | clang_bind/bind.py:33-59 | construction succeeds iff every library target has readable sources and every bound target has readable sources whose `.cpp` files all have a compile command; no named targets means every library target is bound, otherwise exactly the named ones are |
| Binding.PlanEntryIs | clang_bind/bind.py:48-72 | each bound target's entry is the one built from its own sources |
| Binding.PlanEntry | clang_bind/bind.py:48-72 | each entry copies `source_dir` and `output_dir`, lists exactly the `.cpp` sources in source order, each with a compile command and its compile arguments, and has as inclusion sources the target's own non-`.cpp` sources (as a set) or, when allowed, the shared list |
| Binding.PlanSharedInclusions | clang_bind/bind.py:37-55 | with inclusions from other targets allowed, every bound target's inclusion sources are exactly the non-`.cpp` sources of all library targets |
| Binding.AllInclusionSourcesErrorPropagates | clang_bind/bind.py:38-45 | an error at one library target is the error of the whole gathering loop |
| Binding.BindingDbErrorPropagates | clang_bind/bind.py:48-72 | an error at one bound target is the error of the whole filling loop |
| Binding.BindingDbStep | clang_bind/bind.py:48-72 | one loop step with readable sources raises TypeError when a `.cpp` source has no compile command, and otherwise adds the target's entry under its name |
| Binding.BindingDbStepError | clang_bind/bind.py:49-52 | a target whose sources cannot be read stops the loop with that error |
| Binding.JoinSpec | clang_bind/bind.py:78-81 | joining keeps an absolute path and gives the path for an empty directory; a relative one is the directory, one "/" unless the directory already ends with one, and the path |
| Binding.ParsedDbSpec | clang_bind/bind.py:74-90 | parsing keeps every target, directory, inclusion source and file, and gives each file a well-formed tree rooted at the unit the front end made of the file joined to `source_dir`; the inclusion sources passed are each joined to `source_dir` |
| Binding.ParseAsWritten | clang_bind/bind.py:84-88 | as written, the parse step raises TypeError iff some target has a file |
| Binding.ParseAsWrittenRaises | clang_bind/bind.py:84-88 | a single target with one `.cpp` file makes it raise |
| Binding.Bind.constructor | clang_bind/bind.py:47 | the binding database starts empty |
| Binding.Bind.New | clang_bind/bind.py:24-72 | construction succeeds, fails with the same error (including the TypeError of a `.cpp` source without a compile command), and fills the same database as `Plan` |
| Binding.Bind.GatherInclusionSources | clang_bind/bind.py:37-45 | the loop over the library targets gathers `AllInclusionSources` or raises its error |
| Binding.Bind.FillBindingDb | clang_bind/bind.py:47-72 | the loop over the bound targets fills the database as `BindingDb` does, or raises its error, the TypeError of a `.cpp` source without a compile command included |
| Binding.Bind.ParseFiles | clang_bind/bind.py:74-90 | after the parse step the database is `ParsedDb` of the one before |

## Left out

- The clang front end: `index.parse`, `get_children`, `location.file` and `get_tokens`. A
  cursor tree, a translation unit and command lists are input data. The parse step takes the
  front end as a function parameter.
- Python reflection (`dir`, `inspect.getattr_static`, `isfunction`, `property`): an object is a
  list of members. Each member is a function, a property or something else, and evaluating it
  either returns a value or raises.
- The `DynamicClassAttribute` branch of `getmembers_static` (clang_bind/clang_utils.py:24-31).
  It names an undefined `types`, and the instances passed to it always take the
  `AttributeError` path, so it adds no names.
- The verbose branch of `Node` (clang_bind/parse.py:10-15). It calls `get_all_functions_dict`,
  which `ClangUtils` does not define.
- Filtering on several files of inclusion sources. The `Parse` of clang_bind/parse.py filters
  on the root file only, and the model does the same.
- The binding code generator, bindings/python/scripts/interface.py and
  bindings/python/scripts/compilation_database.py: CLI, file listing and a thin wrapper.
  These are not part of this model.
- File reading in cmake_frontend.py: `json.load`, `Path.iterdir` and the search for the
  codemodel file. The model takes the loaded codemodel and a map from reply file name to
  loaded JSON. A missing reply file is FileNotFoundError. A reply directory without a
  codemodel file (an `UnboundLocalError` in the source) is not modelled.
- treelib itself: the tree is an arena of nodes with parent indices. `show`, `save2file` and
  `paths_to_leaves` are not modelled.
- Python's `True == 1` and `hash(True) == hash(1)`: JSON booleans and numbers are distinct keys.
  JSON floats are not modelled; numbers are integers.
- `Bind.bind` only calls `_parse`; it is covered by `Bind.ParseFiles`.
- `output_module_name` and `build_dir` of `Bind`: the first is unused by the code shown, the
  second only locates the file API and the compilation database, which are parameters here.
- `ClangUtils.get_check_functions_dict`, `get_get_functions_dict` and `get_properties_dict`:
  they return the three dictionaries, which are the fields of `Features`.
- Strings.Dedup: Python leaves the order of `list(set(xs))` unspecified. The model fixes
  first-occurrence order, and every property of its callers is stated as a set.
- Binding.Join: pathlib normalisation (repeated separators, `.` components, a trailing "/"
  being dropped, an empty path becoming `.`) is not modelled. An absolute path replaces the
  directory; otherwise the two are joined with one separator.
- CMakeFrontend.CompilationDatabase.CommandsFor: clang's `getCompileCommands` is taken to match
  commands by exact file name. clang's own path matching is not modelled.
- CMakeFrontend.CMakeFileAPI.SetTargetsFromCodemodel: when an exception stops the loop, the
  source has already filed the earlier targets, and the model leaves the targets unchanged.
  The only caller is the constructor, which discards the object on error, so nothing can see
  the difference.
- CMakeFrontend.Target.GetArtifacts, GetCompileGroups, GetDependencies and GetSources: their
  own contracts state only the error case and the absent-key default. The projected
  contents are stated by CMakeFrontend.ListOfSpec, CompileGroupsSpec and ProjectAllSpec.
- CMakeFrontend.Target.GetInstall and GetLink: their own contracts state the error case and
  the absent-key default. The link fragments are stated by CMakeFrontend.LinkSpec; the install
  destinations and prefix only by the function itself.
- TreeParse.Parse.ConstructTree and RecordParse.Parse.ParseNodeRecursive: Python's recursion
  limit (a RecursionError on a very deep cursor tree) is not modelled; the recursion in the
  model has no depth bound.
- RecordParse.GetCompilationArguments: the generator is modelled as the list it yields, and
  the TypeError it raises on its first step as the call raising. Loading the database from a
  directory and the call to `getCompileCommands` are a parameter: what that call returned.
- Iteration order of `binding_db.values()` in `_parse`: the model visits the targets in any
  order. Each target's update is independent, so the final database is the same.
- `scripts.clang_utils`, imported by bindings/python/scripts/parse.py, is taken to be
  clang_bind/clang_utils.py.

## Findings

| source | as written | input that shows it | evidently intended | confidence | as-written member | corrected member |
|---|---|---|---|---|---|---|
| clang_bind/bind.py:84-88 | `_parse` calls `Parse(path, inclusion_sources, compiler_arguments)`. The `Parse.__init__(self, file, compiler_arguments)` of clang_bind/parse.py:26 takes two arguments, so the call raises TypeError. | any bound target with one `.cpp` source, e.g. sources `["a.cpp"]` | each file is parsed with its compile arguments, and the inclusion sources (joined to `source_dir`) are handed to the parser; each file gains the tree `get_tree` builds | high (not executed) | Binding.ParseAsWritten, Binding.ParseAsWrittenRaises | Binding.Bind.ParseFiles, Binding.ParsedDbSpec |
