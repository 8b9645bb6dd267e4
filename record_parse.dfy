/** bindings/python/scripts/parse.py: the same walk as the tree builder, but every kept cursor
    becomes a nested record holding its depth, its location, its tokens, the reflected
    dictionaries of its kind, itself and its type, and the records of its kept children. */
module RecordParse {
  import opened Wrappers
  import opened Clang
  import opened ClangUtils

  /** The node dictionary passed down the walk: `{"cursor", "filename", "depth"}`. */
  datatype NodeRecord = NodeRecord(cursor: Cursor, filename: string, depth: int)

  /** The `parsed_info` dictionary of one node. */
  datatype ParsedInfo = ParsedInfo(
    depth: int,
    line: int,
    column: int,
    tokens: seq<string>,
    cursorKind: map<string, Value>,
    cursor: map<string, Value>,
    typeInfo: map<string, Value>,
    members: seq<ParsedInfo>)

  /** `Parse.is_valid_child`: the child's cursor lies in the parent record's file. */
  predicate IsValidChild(parentNode: NodeRecord, childNode: NodeRecord) {
    IsNodeFromFile(childNode.cursor, parentNode.filename)
  }

  /** `x.spelling` on a dictionary value: only a clang `Type` has one here. */
  function Spelling(v: Value): Result<Value> {
    if v.VType? then Ok(VStr(v.typeSpelling)) else Err(AttributeError)
  }

  /** `x.name` on a dictionary value: only an enumerant has one here. */
  function EnumName(v: Value): Result<Value> {
    if v.VEnum? then Ok(VStr(v.enumName)) else Err(AttributeError)
  }

  /** `d[key] = f(d[key])`: KeyError when `key` is absent, the error of `f` when it fails. */
  function Replace(d: map<string, Value>, key: string, f: Value -> Result<Value>): (r: Result<map<string, Value>>)
    ensures key !in d ==> r == Err(KeyError(key))
    ensures r.Ok? ==> key in d && f(d[key]).Ok? && r.value == d[key := f(d[key]).value]
    ensures key in d && f(d[key]).Err? ==> r == Err(f(d[key]).error)
    ensures key in d && f(d[key]).Ok? ==> r == Ok(d[key := f(d[key]).value])
  {
    if key !in d then Err(KeyError(key))
    else match f(d[key])
      case Err(e) => Err(e)
      case Ok(v) => Ok(d[key := v])
  }

  /** The cursor dictionary after its "result_type" entry is replaced by the type's spelling
      and its "access_specifier" entry by the enumerant's name. */
  function NormalisedCursor(d: map<string, Value>): Result<map<string, Value>> {
    match Replace(d, "result_type", Spelling)
    case Err(e) => Err(e)
    case Ok(d1) => Replace(d1, "access_specifier", EnumName)
  }

  /** The record `get_parsed_node` builds from the three reflected facets, with no members yet:
      each facet's three dictionaries are unpacked into one, then the cursor dictionary and
      the "kind" entry of the type dictionary are normalised. */
  function NodeInfo(c: Cursor, depth: int, kindFeatures: Features, cursorFeatures: Features, typeFeatures: Features): Result<ParsedInfo> {
    match NormalisedCursor(Merged(cursorFeatures))
    case Err(e) => Err(e)
    case Ok(cursorDict) =>
      match Replace(Merged(typeFeatures), "kind", EnumName)
      case Err(e) => Err(e)
      case Ok(typeDict) =>
        Ok(ParsedInfo(depth, c.line, c.column, c.tokens, Merged(kindFeatures), cursorDict, typeDict, []))
  }

  /** The record `get_parsed_node` builds for cursor `c` at depth `depth`: the reflector is run
      on the cursor's kind, the cursor and its type, in that order, and its first error is
      raised. */
  function ParsedNode(c: Cursor, depth: int): Result<ParsedInfo> {
    if FeaturesOf(c.kindFacet).Err? then Err(FeaturesOf(c.kindFacet).error)
    else if FeaturesOf(c.facet).Err? then Err(FeaturesOf(c.facet).error)
    else if FeaturesOf(c.typeFacet).Err? then Err(FeaturesOf(c.typeFacet).error)
    else NodeInfo(c, depth, FeaturesOf(c.kindFacet).value, FeaturesOf(c.facet).value, FeaturesOf(c.typeFacet).value)
  }

  /** The record `parse_node_recursive` returns for cursor `c` at depth `depth`: its own record,
      then its kept children's records in order; the first failure anywhere is raised. */
  function Parsed(c: Cursor, filename: string, depth: int): Result<ParsedInfo>
    decreases c, 1
  {
    match ParsedNode(c, depth)
    case Err(e) => Err(e)
    case Ok(info) =>
      match ParsedMembers(c.children, filename, depth + 1)
      case Err(e) => Err(e)
      case Ok(members) => Ok(info.(members := members))
  }

  /** The `members` list after the loop of `parse_node_recursive` has run over `kids`. */
  function ParsedMembers(kids: seq<Cursor>, filename: string, depth: int): Result<seq<ParsedInfo>>
    decreases kids, 0
  {
    if kids == [] then Ok([])
    else
      match ParsedMembers(kids[..|kids| - 1], filename, depth)
      case Err(e) => Err(e)
      case Ok(members) =>
        var last := kids[|kids| - 1];
        if !IsNodeFromFile(last, filename) then Ok(members)
        else match Parsed(last, filename, depth)
          case Err(e) => Err(e)
          case Ok(p) => Ok(members + [p])
  }

  /** Once the loop has failed on a prefix of the children, the whole walk fails with the
      same error. */
  lemma {:induction false} MembersErrorPropagates(kids: seq<Cursor>, n: nat, filename: string, depth: int)
    requires n <= |kids| && ParsedMembers(kids[..n], filename, depth).Err?
    ensures ParsedMembers(kids, filename, depth) == ParsedMembers(kids[..n], filename, depth)
    decreases |kids| - n
  {
    if n < |kids| {
      assert kids[..n + 1][..n] == kids[..n];
      MembersErrorPropagates(kids, n + 1, filename, depth);
    } else {
      assert kids[..n] == kids;
    }
  }

  /** One more child: the loop either skips it, appends its record, or stops with its error. */
  lemma MembersStep(kids: seq<Cursor>, i: nat, filename: string, depth: int, members: seq<ParsedInfo>)
    requires i < |kids| && ParsedMembers(kids[..i], filename, depth) == Ok(members)
    ensures !IsNodeFromFile(kids[i], filename) ==> ParsedMembers(kids[..i + 1], filename, depth) == Ok(members)
    ensures IsNodeFromFile(kids[i], filename) && Parsed(kids[i], filename, depth).Err? ==>
      ParsedMembers(kids, filename, depth) == Err(Parsed(kids[i], filename, depth).error)
    ensures IsNodeFromFile(kids[i], filename) && Parsed(kids[i], filename, depth).Ok? ==>
      ParsedMembers(kids[..i + 1], filename, depth) == Ok(members + [Parsed(kids[i], filename, depth).value])
  {
    assert kids[..i + 1][..i] == kids[..i];
    if IsNodeFromFile(kids[i], filename) && Parsed(kids[i], filename, depth).Err? {
      MembersErrorPropagates(kids, i + 1, filename, depth);
    }
  }

  class Parse {
    const rootNode: NodeRecord

    /** The walk starts at the root, depth 0. */
    predicate Valid() {
      rootNode.depth == 0
    }

    /** `Parse.__init__` after the front-end has parsed the file: the root record holds the
        unit's cursor, the unit's file name, and depth 0. */
    constructor (unit: TranslationUnit)
      ensures Valid()
      ensures rootNode == NodeRecord(unit.cursor, unit.spelling, 0)
    {
      rootNode := NodeRecord(unit.cursor, unit.spelling, 0);
    }

    /** `Parse.get_parsed_node` */
    static method GetParsedNode(node: NodeRecord) returns (r: Result<ParsedInfo>)
      ensures r == ParsedNode(node.cursor, node.depth)
    {
      var cursor := node.cursor;
      var kindUtils := Reflect(cursor.kindFacet);
      if kindUtils.Err? { return Err(kindUtils.error); }
      var cursorUtils := Reflect(cursor.facet);
      if cursorUtils.Err? { return Err(cursorUtils.error); }
      var typeUtils := Reflect(cursor.typeFacet);
      if typeUtils.Err? { return Err(typeUtils.error); }
      var cursorDict := Merged(cursorUtils.value);
      var typeDict := Merged(typeUtils.value);
      if "result_type" !in cursorDict { return Err(KeyError("result_type")); }
      var resultType := Spelling(cursorDict["result_type"]);
      if resultType.Err? { return Err(resultType.error); }
      cursorDict := cursorDict["result_type" := resultType.value];
      if "access_specifier" !in cursorDict { return Err(KeyError("access_specifier")); }
      var accessSpecifier := EnumName(cursorDict["access_specifier"]);
      if accessSpecifier.Err? { return Err(accessSpecifier.error); }
      cursorDict := cursorDict["access_specifier" := accessSpecifier.value];
      if "kind" !in typeDict { return Err(KeyError("kind")); }
      var typeKind := EnumName(typeDict["kind"]);
      if typeKind.Err? { return Err(typeKind.error); }
      typeDict := typeDict["kind" := typeKind.value];
      r := Ok(ParsedInfo(node.depth, cursor.line, cursor.column, cursor.tokens,
                         Merged(kindUtils.value), cursorDict, typeDict, []));
    }

    /** `Parse.parse_node_recursive`: the node's own record, then, for each child the front-end
        reports, in order, a record one level deeper appended to `members` when the child is
        valid. */
    static method ParseNodeRecursive(node: NodeRecord) returns (r: Result<ParsedInfo>)
      ensures r == Parsed(node.cursor, node.filename, node.depth)
      decreases node.cursor
    {
      var parsedInfo := GetParsedNode(node);
      if parsedInfo.Err? {
        return Err(parsedInfo.error);
      }
      var kids := node.cursor.children;
      var members: seq<ParsedInfo> := [];
      var i := 0;
      while i < |kids|
        invariant 0 <= i <= |kids|
        invariant ParsedMembers(kids[..i], node.filename, node.depth + 1) == Ok(members)
      {
        var child := kids[i];
        MembersStep(kids, i, node.filename, node.depth + 1, members);
        var childNode := NodeRecord(child, node.filename, node.depth + 1);
        if IsValidChild(node, childNode) {
          var childParsedInfo := ParseNodeRecursive(childNode);
          if childParsedInfo.Err? {
            return Err(childParsedInfo.error);
          }
          members := members + [childParsedInfo.value];
        }
        i := i + 1;
      }
      assert kids[..i] == kids;
      r := Ok(parsedInfo.value.(members := members));
    }

    /** `Parse.get_parsed_info`: the walk from the root record. */
    method GetParsedInfo() returns (r: Result<ParsedInfo>)
      requires Valid()
      ensures r == Parsed(rootNode.cursor, rootNode.filename, 0)
    {
      r := ParseNodeRecursive(rootNode);
    }
  }

  /** `Parse.get_compilation_arguments`: for each compile command clang selected for the file,
      in order, its arguments without the compiler (first) and the input file (last). Clang
      gives None for a file without commands, and the loop over None raises TypeError. */
  method GetCompilationArguments(selected: Option<seq<CompileCommand>>) returns (r: Result<seq<seq<string>>>)
    ensures r.Err? <==> selected.None?
    ensures r.Err? ==> r.error == TypeError
    ensures r.Ok? ==> (
      var commands := selected.value;
      && |r.value| == |commands|
      && (forall i :: 0 <= i < |commands| && |commands[i].arguments| >= 2 ==>
            commands[i].arguments == [commands[i].arguments[0]] + r.value[i] + [commands[i].arguments[|commands[i].arguments| - 1]])
      && (forall i :: 0 <= i < |commands| && |commands[i].arguments| <= 2 ==> r.value[i] == []))
  {
    if selected.None? {
      return Err(TypeError);
    }
    var commands := selected.value;
    var arguments: seq<seq<string>> := [];
    for i := 0 to |commands|
      invariant |arguments| == i
      invariant forall j :: 0 <= j < i ==> arguments[j] == StripCompilerAndInput(commands[j].arguments)
    {
      arguments := arguments + [StripCompilerAndInput(commands[i].arguments)];
    }
    return Ok(arguments);
  }

  /** Every record in `p` sits one level below the record that holds it, starting from `d`. */
  ghost predicate DepthsFrom(p: ParsedInfo, d: int)
    decreases p
  {
    && p.depth == d
    && forall i :: 0 <= i < |p.members| ==> DepthsFrom(p.members[i], d + 1)
  }

  /** The root record has the depth the walk starts with, and every member record has its
      parent's depth plus one, all the way down. */
  lemma {:induction false} ParsedDepths(c: Cursor, filename: string, d: int)
    requires Parsed(c, filename, d).Ok?
    ensures DepthsFrom(Parsed(c, filename, d).value, d)
    decreases c, 1
  {
    MembersDepths(c.children, filename, d + 1);
  }

  lemma {:induction false} MembersDepths(kids: seq<Cursor>, filename: string, d: int)
    requires ParsedMembers(kids, filename, d).Ok?
    ensures forall i :: 0 <= i < |ParsedMembers(kids, filename, d).value| ==>
      DepthsFrom(ParsedMembers(kids, filename, d).value[i], d)
    decreases kids, 0
  {
    if kids != [] {
      var init, last := kids[..|kids| - 1], kids[|kids| - 1];
      MembersDepths(init, filename, d);
      if IsNodeFromFile(last, filename) {
        ParsedDepths(last, filename, d);
      }
    }
  }

  /** When the loop succeeds, `members` holds one record per child that passes the file
      filter, in the order the front-end reports them: the record of that child's own walk. */
  lemma {:induction false} MembersAreAcceptedChildren(kids: seq<Cursor>, filename: string, d: int)
    requires ParsedMembers(kids, filename, d).Ok?
    ensures |ParsedMembers(kids, filename, d).value| == |Accepted(kids, filename)|
    ensures forall i :: 0 <= i < |Accepted(kids, filename)| ==>
      Parsed(Accepted(kids, filename)[i], filename, d) == Ok(ParsedMembers(kids, filename, d).value[i])
  {
    if kids != [] {
      var init, last := kids[..|kids| - 1], kids[|kids| - 1];
      MembersAreAcceptedChildren(init, filename, d);
      var ms := ParsedMembers(init, filename, d).value;
      var acc := Accepted(init, filename);
      assert Accepted(kids, filename) == acc + if IsNodeFromFile(last, filename) then [last] else [];
      if IsNodeFromFile(last, filename) {
        assert ParsedMembers(kids, filename, d).value == ms + [Parsed(last, filename, d).value];
      }
    }
  }

  /** The loop succeeds exactly when the walk of every child that passes the file filter
      succeeds. */
  lemma {:induction false} MembersSucceed(kids: seq<Cursor>, filename: string, d: int)
    ensures ParsedMembers(kids, filename, d).Ok? <==>
      forall i :: 0 <= i < |Accepted(kids, filename)| ==> Parsed(Accepted(kids, filename)[i], filename, d).Ok?
  {
    if kids != [] {
      var init, last := kids[..|kids| - 1], kids[|kids| - 1];
      MembersSucceed(init, filename, d);
      assert ParsedMembers(init, filename, d).Ok? <==>
        forall i :: 0 <= i < |Accepted(init, filename)| ==> Parsed(Accepted(init, filename)[i], filename, d).Ok?;
      var acc := Accepted(init, filename);
      var all := Accepted(kids, filename);
      assert ParsedMembers(kids, filename, d).Ok? <==>
        ParsedMembers(init, filename, d).Ok? && (IsNodeFromFile(last, filename) ==> Parsed(last, filename, d).Ok?);
      assert all == acc + if IsNodeFromFile(last, filename) then [last] else [];
      assert forall i :: 0 <= i < |acc| ==> all[i] == acc[i];
      if IsNodeFromFile(last, filename) {
        assert all[|acc|] == last;
        assert (forall i :: 0 <= i < |all| ==> Parsed(all[i], filename, d).Ok?) <==>
          (forall i :: 0 <= i < |acc| ==> Parsed(acc[i], filename, d).Ok?) && Parsed(last, filename, d).Ok?;
      } else {
        assert all == acc;
      }
    }
  }

  /** The walk of a cursor succeeds exactly when its own record can be built and the walk of
      every child that passes the file filter succeeds; the record it returns is its own record
      with those children's records as members. */
  lemma ParsedSucceeds(c: Cursor, filename: string, d: int)
    ensures Parsed(c, filename, d).Ok? <==>
      ParsedNode(c, d).Ok? &&
      forall i :: 0 <= i < |Accepted(c.children, filename)| ==> Parsed(Accepted(c.children, filename)[i], filename, d + 1).Ok?
    ensures Parsed(c, filename, d).Ok? ==>
      Parsed(c, filename, d).value.(members := []) == ParsedNode(c, d).value &&
      |Parsed(c, filename, d).value.members| == |Accepted(c.children, filename)|
  {
    MembersSucceed(c.children, filename, d + 1);
    if Parsed(c, filename, d).Ok? {
      MembersAreAcceptedChildren(c.children, filename, d + 1);
    }
  }

  /** The cursor dictionary's normalisation: it fails with KeyError when "result_type" or
      "access_specifier" is missing and with AttributeError when the entry is not a type or an
      enumerant; otherwise both entries hold the spelling or name and nothing else changes. */
  lemma NormalisedCursorSpec(d: map<string, Value>)
    ensures "result_type" !in d ==> NormalisedCursor(d) == Err(KeyError("result_type"))
    ensures "result_type" in d && !d["result_type"].VType? ==> NormalisedCursor(d) == Err(AttributeError)
    ensures "result_type" in d && d["result_type"].VType? && "access_specifier" !in d ==>
      NormalisedCursor(d) == Err(KeyError("access_specifier"))
    ensures "result_type" in d && d["result_type"].VType? && "access_specifier" in d && !d["access_specifier"].VEnum? ==>
      NormalisedCursor(d) == Err(AttributeError)
    ensures NormalisedCursor(d).Ok? <==>
      "result_type" in d && d["result_type"].VType? && "access_specifier" in d && d["access_specifier"].VEnum?
    ensures NormalisedCursor(d).Ok? ==>
      && NormalisedCursor(d).value.Keys == d.Keys
      && NormalisedCursor(d).value["result_type"] == VStr(d["result_type"].typeSpelling)
      && NormalisedCursor(d).value["access_specifier"] == VStr(d["access_specifier"].enumName)
      && forall k :: k in d && k != "result_type" && k != "access_specifier" ==> NormalisedCursor(d).value[k] == d[k]
  {
  }

  /** A built record: depth, line, column and tokens are the cursor's; the kind dictionary is
      the reflector's merged dictionaries unchanged; the type dictionary has its "kind" entry
      replaced by the enumerant's name and nothing else changed. */
  lemma ParsedNodeFields(c: Cursor, depth: int)
    requires ParsedNode(c, depth).Ok?
    ensures var p := ParsedNode(c, depth).value;
      && p.depth == depth && p.line == c.line && p.column == c.column && p.tokens == c.tokens
      && p.members == []
      && FeaturesOf(c.kindFacet).Ok? && FeaturesOf(c.facet).Ok? && FeaturesOf(c.typeFacet).Ok?
      && p.cursorKind == Merged(FeaturesOf(c.kindFacet).value)
      && NormalisedCursor(Merged(FeaturesOf(c.facet).value)) == Ok(p.cursor)
      && var t := Merged(FeaturesOf(c.typeFacet).value);
         "kind" in t && t["kind"].VEnum? && p.typeInfo == t["kind" := VStr(t["kind"].enumName)]
  {
  }
}
