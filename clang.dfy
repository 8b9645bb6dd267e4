/** What the clang front-end and Python reflection hand to the modelled code, as plain data.
    The front-end itself (parsing, `get_children`, `location.file`, `get_tokens`,
    the compilation database lookup) is not modelled: its answers are fields here. */
module Clang {
  import opened Wrappers

  /** A value that evaluating an introspection member may produce. */
  datatype Value =
    | VNone
    | VBool(b: bool)
    | VInt(i: int)
    | VStr(s: string)
    | VEnum(enumName: string)       // an enumerant: CursorKind, TypeKind, AccessSpecifier, ... (has `.name`)
    | VType(typeSpelling: string)   // a clang `Type` object (has `.spelling`)
    | VObject                       // any other object

  /** What happens when a member is evaluated on the object. */
  datatype Outcome = Returns(v: Value) | Raises

  /** What `inspect.getattr_static` finds under a name. */
  datatype Attr =
    | Function(call: Outcome)       // a plain function; `call` is the outcome of `func(object)`
    | Property(read: Outcome)       // a `property`; `read` is the outcome of `getattr(object, name)`
    | OtherAttr                     // anything else (static methods, constants, ...)

  datatype Member = Member(name: string, attr: Attr)

  datatype ObjectClass = CursorKindClass | CursorClass | TypeClass | OtherClass

  /** An object as reflection sees it: its class and the members `dir` lists for it. */
  datatype Reflected = Reflected(cls: ObjectClass, members: seq<Member>)

  /** A front-end cursor together with everything the modelled code asks of it. */
  datatype Cursor = Cursor(
    kind: string,                // `cursor.kind.name`
    spelling: string,
    file: Option<string>,        // `cursor.location.file.name`, None when the location has no file
    line: int,
    column: int,
    tokens: seq<string>,         // spellings of `cursor.get_tokens()`
    kindFacet: Reflected,        // `cursor.kind`
    facet: Reflected,            // `cursor` itself
    typeFacet: Reflected,        // `cursor.type`
    children: seq<Cursor>)       // `cursor.get_children()`, in the order the front-end reports them

  /** The result of `index.parse`: the translation unit's file name and its root cursor. */
  datatype TranslationUnit = TranslationUnit(spelling: string, cursor: Cursor)

  /** One entry of a compilation database. */
  datatype CompileCommand = CompileCommand(filename: string, arguments: seq<string>)

  /** `list(arguments)[1:-1]`: drop the compiler (first) and the input file (last).
      A list of fewer than two arguments becomes empty, as Python's slice does. */
  function StripCompilerAndInput(arguments: seq<string>): (r: seq<string>)
    ensures |arguments| <= 2 ==> r == []
    ensures |arguments| >= 2 ==> arguments == [arguments[0]] + r + [arguments[|arguments| - 1]]
  {
    if |arguments| < 2 then [] else arguments[1..|arguments| - 1]
  }

  /** The location filter of both tree builders: the cursor has a location file, and that
      file's name is `filename`. */
  predicate IsNodeFromFile(c: Cursor, filename: string) {
    c.file.Some? && c.file.value == filename
  }

  /** The children `get_children` reports that pass the file filter, in their order. */
  function Accepted(kids: seq<Cursor>, filename: string): seq<Cursor> {
    if kids == [] then []
    else
      var last := kids[|kids| - 1];
      Accepted(kids[..|kids| - 1], filename) + if IsNodeFromFile(last, filename) then [last] else []
  }

  /** A cursor is kept exactly when it is one of the children and lies in the file. */
  lemma {:induction false} AcceptedMembers(kids: seq<Cursor>, filename: string)
    ensures forall c :: c in Accepted(kids, filename) <==> c in kids && IsNodeFromFile(c, filename)
  {
    if kids != [] {
      AcceptedMembers(kids[..|kids| - 1], filename);
      assert kids == kids[..|kids| - 1] + [kids[|kids| - 1]];
    }
  }
}
