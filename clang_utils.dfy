/** clang_bind/clang_utils.py: static member enumeration and the split of an object's
    introspection members into `is_` functions, `get_` functions and properties. */
module ClangUtils {
  import opened Wrappers
  import opened Strings
  import opened Clang

  /** Members never evaluated: they crash the process on some cursors. */
  const IgnoreList: seq<string> := ["mangled_name", "get_address_space", "get_typedef_name", "tls_kind"]

  /** The three dictionaries a `ClangUtils` object holds. */
  datatype Features = Features(
    checkFunctions: map<string, Value>,   // `check_functions_dict`
    getFunctions: map<string, Value>,     // `get_functions_dict`
    properties: map<string, Value>)       // `properties_dict`

  predicate SortedByName(ms: seq<Member>) {
    forall i, j :: 0 <= i < j < |ms| ==> !Less(ms[j].name, ms[i].name)
  }

  predicate UniqueNames(ms: seq<Member>) {
    forall i, j :: 0 <= i < j < |ms| ==> ms[i].name != ms[j].name
  }

  /** Insert `m` after every member whose name is not greater than its own (so the insertion is stable). */
  function InsertByName(ms: seq<Member>, m: Member): (r: seq<Member>)
    ensures multiset(r) == multiset(ms) + multiset{m}
  {
    if ms == [] then [m]
    else if Less(m.name, ms[0].name) then [m] + ms
    else
      assert ms == [ms[0]] + ms[1..];
      [ms[0]] + InsertByName(ms[1..], m)
  }

  lemma SortedCons(x: Member, ms: seq<Member>)
    requires SortedByName(ms)
    requires forall j :: 0 <= j < |ms| ==> !Less(ms[j].name, x.name)
    ensures SortedByName([x] + ms)
  {
    forall i, j | 0 <= i < j < |[x] + ms| ensures !Less(([x] + ms)[j].name, ([x] + ms)[i].name) {
      if i > 0 {
        assert ([x] + ms)[i] == ms[i - 1];
      }
      assert ([x] + ms)[j] == ms[j - 1];
    }
  }

  lemma {:induction false} InsertKeepsSorted(ms: seq<Member>, m: Member)
    requires SortedByName(ms)
    ensures SortedByName(InsertByName(ms, m))
  {
    if ms == [] {
    } else if Less(m.name, ms[0].name) {
      forall j | 0 <= j < |ms| ensures !Less(ms[j].name, m.name) {
        if j == 0 {
          LessAsymmetric(m.name, ms[0].name);
        } else if Less(ms[j].name, m.name) {
          LessTransitive(ms[j].name, m.name, ms[0].name);
        }
      }
      SortedCons(m, ms);
    } else {
      var rest := InsertByName(ms[1..], m);
      assert SortedByName(ms[1..]) by {
        forall i, j | 0 <= i < j < |ms[1..]| ensures !Less(ms[1..][j].name, ms[1..][i].name) {
          assert ms[1..][j] == ms[j + 1] && ms[1..][i] == ms[i + 1];
        }
      }
      InsertKeepsSorted(ms[1..], m);
      forall j | 0 <= j < |rest| ensures !Less(rest[j].name, ms[0].name) {
        assert rest[j] in multiset(rest);
        if rest[j] != m {
          assert rest[j] in multiset(ms[1..]);
          var k :| 0 <= k < |ms[1..]| && ms[1..][k] == rest[j];
          assert ms[k + 1] == rest[j];
        }
      }
      SortedCons(ms[0], rest);
    }
  }

  /** `list.sort(key=name)`, as an insertion sort by name. The names `dir()` lists are unique,
      so any order sorted by name is the one Python's sort gives. */
  function SortByName(ms: seq<Member>): seq<Member> {
    if ms == [] then []
    else InsertByName(SortByName(ms[..|ms| - 1]), ms[|ms| - 1])
  }

  /** The sort orders the members by name and neither loses nor adds any. */
  lemma {:induction false} SortByNameSorts(ms: seq<Member>)
    ensures SortedByName(SortByName(ms))
    ensures multiset(SortByName(ms)) == multiset(ms)
  {
    if ms != [] {
      SortByNameSorts(ms[..|ms| - 1]);
      InsertKeepsSorted(SortByName(ms[..|ms| - 1]), ms[|ms| - 1]);
      assert ms == ms[..|ms| - 1] + [ms[|ms| - 1]];
    }
  }

  /** `not predicate or predicate(value)`, the source's test on each member */
  predicate Keeps(filter: Option<Attr -> bool>, a: Attr) {
    filter.None? || filter.value(a)
  }

  /** The members `getmembers_static` appends to `results`, in `dir` order. */
  function Select(ms: seq<Member>, filter: Option<Attr -> bool>): seq<Member> {
    if ms == [] then []
    else
      var rest := Select(ms[..|ms| - 1], filter);
      if Keeps(filter, ms[|ms| - 1].attr) then rest + [ms[|ms| - 1]] else rest
  }

  /** `Select` keeps every copy of a member the filter accepts and no copy of any other. */
  lemma {:induction false} SelectCounts(ms: seq<Member>, filter: Option<Attr -> bool>, m: Member)
    ensures multiset(Select(ms, filter))[m] == if Keeps(filter, m.attr) then multiset(ms)[m] else 0
  {
    if ms != [] {
      SelectCounts(ms[..|ms| - 1], filter, m);
      assert ms == ms[..|ms| - 1] + [ms[|ms| - 1]];
    }
  }

  /** `getmembers_static(object, filter)`: the members (name and raw attribute) that satisfy
      `filter` (the source's `predicate`; all of them when there is none), sorted by name. */
  method GetMembersStatic(obj: Reflected, filter: Option<Attr -> bool>) returns (results: seq<Member>)
    ensures results == SortByName(Select(obj.members, filter))
  {
    results := [];
    var names := obj.members;
    var i := 0;
    while i < |names|
      invariant 0 <= i <= |names|
      invariant results == Select(names[..i], filter)
    {
      var member := names[i];
      assert names[..i + 1][..i] == names[..i] && names[..i + 1][i] == member;
      if filter.None? || filter.value(member.attr) {
        results := results + [member];
      }
      i := i + 1;
    }
    assert names[..i] == names;
    results := SortByName(results);
  }

  /** What `getmembers_static` promises: its result is sorted by name and holds exactly the
      members that satisfy the filter, each as often as the object lists it. */
  lemma MembersSortedAndSelected(ms: seq<Member>, filter: Option<Attr -> bool>)
    ensures SortedByName(SortByName(Select(ms, filter)))
    ensures forall m ::
              multiset(SortByName(Select(ms, filter)))[m] == if Keeps(filter, m.attr) then multiset(ms)[m] else 0
  {
    SortByNameSorts(Select(ms, filter));
    forall m ensures multiset(SortByName(Select(ms, filter)))[m] == if Keeps(filter, m.attr) then multiset(ms)[m] else 0 {
      SelectCounts(ms, filter, m);
    }
  }

  /** One iteration of the loop in `ClangUtils.__init__`. */
  function Step(f: Features, m: Member): Features {
    if m.name in IgnoreList then f
    else match m.attr
      case Function(Returns(v)) =>
        if StartsWith(m.name, "is_") then f.(checkFunctions := f.checkFunctions[m.name := v])
        else if StartsWith(m.name, "get_") then f.(getFunctions := f.getFunctions[m.name := v])
        else f
      case Function(Raises) => f
      case Property(Returns(v)) => f.(properties := f.properties[m.name := v])
      case Property(Raises) => f
      case OtherAttr => f
  }

  /** The three dictionaries after the loop has run over `ms`. */
  function Classify(ms: seq<Member>): Features {
    if ms == [] then Features(map[], map[], map[])
    else Step(Classify(ms[..|ms| - 1]), ms[|ms| - 1])
  }

  /** What `ClangUtils(object)` produces, as a value. */
  function FeaturesOf(obj: Reflected): Result<Features> {
    if obj.cls == OtherClass then Err(NotImplementedError) else Ok(Classify(SortByName(obj.members)))
  }

  /** The three dictionaries unpacked into one, in the order `get_parsed_node` unpacks them:
      a later dictionary overrides an earlier one on a shared key. */
  function Merged(f: Features): (r: map<string, Value>)
    ensures forall k :: k in r <==> k in f.checkFunctions || k in f.getFunctions || k in f.properties
    ensures forall k :: k in f.properties ==> r[k] == f.properties[k]
    ensures forall k :: k in f.getFunctions && k !in f.properties ==> r[k] == f.getFunctions[k]
    ensures forall k :: k in f.checkFunctions && k !in f.getFunctions && k !in f.properties ==>
      r[k] == f.checkFunctions[k]
  {
    f.checkFunctions + f.getFunctions + f.properties
  }

  /** `ClangUtils(object)`: NotImplementedError unless the object is a CursorKind, a Cursor or a
      Type; otherwise the three dictionaries built from the statically enumerated members. */
  method Reflect(obj: Reflected) returns (r: Result<Features>)
    ensures r.Err? <==> obj.cls == OtherClass
    ensures r.Err? ==> r.error == NotImplementedError
    ensures r.Ok? ==> r.value == Classify(SortByName(obj.members))
    ensures r == FeaturesOf(obj)
  {
    if obj.cls == OtherClass {
      return Err(NotImplementedError);
    }
    var checkFunctions: map<string, Value> := map[];
    var getFunctions: map<string, Value> := map[];
    var properties: map<string, Value> := map[];
    var entries := GetMembersStatic(obj, None);
    assert Select(obj.members, None) == obj.members by {
      SelectAll(obj.members);
    }
    var i := 0;
    while i < |entries|
      invariant 0 <= i <= |entries|
      invariant Features(checkFunctions, getFunctions, properties) == Classify(entries[..i])
    {
      var name, attr := entries[i].name, entries[i].attr;
      assert entries[..i + 1][..i] == entries[..i];
      assert Classify(entries[..i + 1]) == Step(Classify(entries[..i]), entries[i]);
      if name !in IgnoreList {
        match attr {
          case Function(call) =>
            PrefixesExclusive(name);
            if call.Returns? {
              if StartsWith(name, "is_") {
                checkFunctions := checkFunctions[name := call.v];
              }
              if StartsWith(name, "get_") {
                getFunctions := getFunctions[name := call.v];
              }
            }
          case Property(read) =>
            if read.Returns? {
              properties := properties[name := read.v];
            }
          case OtherAttr =>
        }
      }
      i := i + 1;
    }
    assert entries[..i] == entries;
    r := Ok(Features(checkFunctions, getFunctions, properties));
  }

  lemma {:induction false} SelectAll(ms: seq<Member>)
    ensures Select(ms, None) == ms
  {
    if ms != [] {
      SelectAll(ms[..|ms| - 1]);
      assert ms == ms[..|ms| - 1] + [ms[|ms| - 1]];
    }
  }

  lemma PrefixesExclusive(k: string)
    ensures StartsWith(k, "is_") ==> !StartsWith(k, "get_")
  {
    if StartsWith(k, "is_") {
      assert k[0] == 'i';
    }
  }

  /** Some member of `ms` is named `k` and is a function whose call returns. */
  ghost predicate ReturningFunction(ms: seq<Member>, k: string) {
    exists i :: 0 <= i < |ms| && ms[i].name == k && ms[i].attr.Function? && ms[i].attr.call.Returns?
  }

  /** Some member of `ms` is named `k` and is a property whose read returns. */
  ghost predicate ReturningProperty(ms: seq<Member>, k: string) {
    exists i :: 0 <= i < |ms| && ms[i].name == k && ms[i].attr.Property? && ms[i].attr.read.Returns?
  }

  /** Adding one member adds exactly that member's name, when it evaluates without raising. */
  lemma ReturningSnoc(init: seq<Member>, last: Member, k: string)
    ensures ReturningFunction(init + [last], k) <==>
      ReturningFunction(init, k) || (last.name == k && last.attr.Function? && last.attr.call.Returns?)
    ensures ReturningProperty(init + [last], k) <==>
      ReturningProperty(init, k) || (last.name == k && last.attr.Property? && last.attr.read.Returns?)
  {
    var ms := init + [last];
    if ReturningFunction(ms, k) {
      var i :| 0 <= i < |ms| && ms[i].name == k && ms[i].attr.Function? && ms[i].attr.call.Returns?;
      if i < |init| { assert init[i] == ms[i]; }
    }
    if ReturningFunction(init, k) {
      var i :| 0 <= i < |init| && init[i].name == k && init[i].attr.Function? && init[i].attr.call.Returns?;
      assert ms[i] == init[i];
    }
    if ReturningProperty(ms, k) {
      var i :| 0 <= i < |ms| && ms[i].name == k && ms[i].attr.Property? && ms[i].attr.read.Returns?;
      if i < |init| { assert init[i] == ms[i]; }
    }
    if ReturningProperty(init, k) {
      var i :| 0 <= i < |init| && init[i].name == k && init[i].attr.Property? && init[i].attr.read.Returns?;
      assert ms[i] == init[i];
    }
    assert ms[|init|] == last;
  }

  /** Exactly which names end up in each dictionary: not ignored, of the right kind, evaluated
      without raising and, for the two function dictionaries, with the right prefix. */
  lemma {:induction false} ClassifyKeys(ms: seq<Member>, k: string)
    ensures k in Classify(ms).checkFunctions <==>
      k !in IgnoreList && StartsWith(k, "is_") && ReturningFunction(ms, k)
    ensures k in Classify(ms).getFunctions <==>
      k !in IgnoreList && StartsWith(k, "get_") && ReturningFunction(ms, k)
    ensures k in Classify(ms).properties <==>
      k !in IgnoreList && ReturningProperty(ms, k)
  {
    if ms != [] {
      var init, last := ms[..|ms| - 1], ms[|ms| - 1];
      ClassifyKeys(init, k);
      assert ms == init + [last];
      ReturningSnoc(init, last, k);
      PrefixesExclusive(k);
    }
  }

  /** With distinct names (as `dir` gives them), each recorded entry holds the value its own
      member evaluated to, and a member that raised is recorded nowhere. */
  lemma {:induction false} ClassifyValues(ms: seq<Member>, i: nat)
    requires UniqueNames(ms) && i < |ms|
    ensures var f, m := Classify(ms), ms[i];
      && (m.name !in IgnoreList && m.attr.Function? && m.attr.call.Returns? && StartsWith(m.name, "is_") ==>
            m.name in f.checkFunctions && f.checkFunctions[m.name] == m.attr.call.v)
      && (m.name !in IgnoreList && m.attr.Function? && m.attr.call.Returns? && StartsWith(m.name, "get_") ==>
            m.name in f.getFunctions && f.getFunctions[m.name] == m.attr.call.v)
      && (m.name !in IgnoreList && m.attr.Property? && m.attr.read.Returns? ==>
            m.name in f.properties && f.properties[m.name] == m.attr.read.v)
      && (m.attr.Function? && m.attr.call.Raises? ==>
            m.name !in f.checkFunctions && m.name !in f.getFunctions && m.name !in f.properties)
      && (m.attr.Property? && m.attr.read.Raises? ==>
            m.name !in f.checkFunctions && m.name !in f.getFunctions && m.name !in f.properties)
  {
    var init, last := ms[..|ms| - 1], ms[|ms| - 1];
    assert ms == init + [last];
    if i == |ms| - 1 {
      forall j | 0 <= j < |init| ensures init[j].name != last.name {
        assert init[j] == ms[j] && j < |ms| - 1;
        assert ms[j].name != ms[|ms| - 1].name;
      }
      ClassifyKeys(init, last.name);
      PrefixesExclusive(last.name);
    } else {
      ClassifyValues(init, i);
      assert init[i] == ms[i];
      assert last.name != ms[i].name;
    }
  }

  /** The consequences the source's comments promise: an ignored name is in no dictionary,
      check keys start with "is_", getter keys with "get_", and (names being distinct) a function
      with neither prefix is recorded nowhere. */
  lemma IgnoredAndUnprefixedAbsent(ms: seq<Member>, k: string)
    ensures k in IgnoreList ==>
      k !in Classify(ms).checkFunctions && k !in Classify(ms).getFunctions && k !in Classify(ms).properties
    ensures k in Classify(ms).checkFunctions ==> StartsWith(k, "is_")
    ensures k in Classify(ms).getFunctions ==> StartsWith(k, "get_")
    ensures UniqueNames(ms) && (exists i :: 0 <= i < |ms| && ms[i].name == k && ms[i].attr.Function?) &&
            !StartsWith(k, "is_") && !StartsWith(k, "get_") ==>
      k !in Classify(ms).checkFunctions && k !in Classify(ms).getFunctions && k !in Classify(ms).properties
  {
    ClassifyKeys(ms, k);
    if UniqueNames(ms) && exists i :: 0 <= i < |ms| && ms[i].name == k && ms[i].attr.Function? {
      var i :| 0 <= i < |ms| && ms[i].name == k && ms[i].attr.Function?;
      forall j | 0 <= j < |ms| && ms[j].name == k ensures j == i {
      }
    }
  }
}
