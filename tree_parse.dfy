/** clang_bind/parse.py: build a tree of the cursors of one translation unit, keeping only the
    cursors located in the translation unit's own file.

    The treelib tree is an arena: node `j` is `tree[j]`, its identifier is its index, and it
    records its parent's index. treelib appends a node to its parent's children when the node
    is created, so the children of node `i` are the nodes whose parent is `i`, in index order. */
module TreeParse {
  import opened Wrappers
  import opened Clang

  datatype TreeNode = TreeNode(cursor: Cursor, tag: string, parent: Option<nat>)

  /** `repr(Node(cursor))` without `verbose`: the kind name, a colon and the quoted spelling. */
  function Tag(c: Cursor): string {
    c.kind + ":'" + c.spelling + "'"
  }

  /** The nodes `_construct_tree` creates for one child cursor `c` of node `parent`, when the
      next free index is `start`: nothing when `c` is rejected, else `c`'s node followed by the
      nodes of its own children. */
  function Subtree(c: Cursor, filename: string, parent: nat, start: nat): seq<TreeNode>
    decreases c, 1
  {
    if IsNodeFromFile(c, filename) then
      [TreeNode(c, Tag(c), Some(parent))] + Forest(c.children, filename, start, start + 1)
    else []
  }

  /** The nodes `_construct_tree` creates, in creation order, while its loop runs over `kids`
      (children of node `parent`), when the next free index is `start`. */
  function Forest(kids: seq<Cursor>, filename: string, parent: nat, start: nat): seq<TreeNode>
    decreases kids, 0
  {
    if kids == [] then []
    else
      var init := Forest(kids[..|kids| - 1], filename, parent, start);
      init + Subtree(kids[|kids| - 1], filename, parent, start + |init|)
  }

  class Parse {
    const filename: string
    const rootNode: nat
    var tree: seq<TreeNode>

    ghost predicate Valid()
      reads this
    {
      rootNode < |tree|
    }

    /** `Parse.__init__` after the front-end has parsed the file: the root node is the
        translation unit's cursor, and the filter compares against the unit's spelling. */
    constructor (unit: TranslationUnit)
      ensures Valid()
      ensures filename == unit.spelling
      ensures tree == [TreeNode(unit.cursor, Tag(unit.cursor), None)] && rootNode == 0
    {
      filename := unit.spelling;
      tree := [TreeNode(unit.cursor, Tag(unit.cursor), None)];
      rootNode := 0;
    }

    /** `Parse._is_valid_child` */
    predicate IsValidChild(child: Cursor)
      reads this
    {
      IsNodeFromFile(child, filename)
    }

    /** treelib's `create_node(identifier, parent, tag)`: a new node at the next free index. */
    method CreateNode(c: Cursor, parent: nat) returns (id: nat)
      modifies this`tree
      ensures tree == old(tree) + [TreeNode(c, Tag(c), Some(parent))]
      ensures id == |old(tree)|
    {
      id := |tree|;
      tree := tree + [TreeNode(c, Tag(c), Some(parent))];
    }

    /** `Parse._construct_tree(node)`: for each child cursor, in order, a rejected child is
        skipped with its whole subtree; an accepted one gets a node under `node` and is then
        walked itself before the next child is looked at. */
    method ConstructTree(node: nat)
      requires node < |tree|
      modifies this`tree
      ensures tree == old(tree) + Forest(old(tree)[node].cursor.children, filename, node, |old(tree)|)
      decreases tree[node].cursor
    {
      var kids := tree[node].cursor.children;
      ghost var start := |tree|;
      ghost var before := tree;
      var i := 0;
      while i < |kids|
        invariant 0 <= i <= |kids|
        invariant tree == before + Forest(kids[..i], filename, node, start)
      {
        var childCursor := kids[i];
        assert kids[..i + 1][..i] == kids[..i] && kids[..i + 1][i] == childCursor;
        if IsValidChild(childCursor) {
          var childNode := CreateNode(childCursor, node);
          ConstructTree(childNode);
        }
        i := i + 1;
      }
      assert kids[..i] == kids;
    }

    /** `Parse.get_tree`: walk the root and return the tree. */
    method GetTree() returns (t: seq<TreeNode>)
      requires Valid()
      modifies this`tree
      ensures Valid()
      ensures tree == old(tree) + Forest(old(tree)[rootNode].cursor.children, filename, rootNode, |old(tree)|)
      ensures t == tree
    {
      ConstructTree(rootNode);
      t := tree;
    }
  }

  /** The tree `Parse(unit).get_tree()` returns. */
  function BuiltTree(unit: TranslationUnit): seq<TreeNode> {
    [TreeNode(unit.cursor, Tag(unit.cursor), None)] + Forest(unit.cursor.children, unit.spelling, 0, 1)
  }

  /** Constructing a parser and calling `get_tree` once yields `BuiltTree`. */
  method ParseAndGetTree(unit: TranslationUnit) returns (t: seq<TreeNode>)
    ensures t == BuiltTree(unit)
  {
    var parser := new Parse(unit);
    t := parser.GetTree();
  }

  /** The cursors of the children of node `i` in arena `t`, in index (creation) order. */
  function ChildCursors(t: seq<TreeNode>, i: nat): seq<Cursor> {
    if t == [] then []
    else
      var last := t[|t| - 1];
      ChildCursors(t[..|t| - 1], i) + if last.parent == Some(i) then [last.cursor] else []
  }

  /** The arena invariants of the tree: the root (index 0) has no parent; every other node has
      one parent, created before it, whose cursor reported it as a child; every non-root cursor
      lies in `filename`; every tag is `Tag` of the node's cursor. */
  ghost predicate WellFormed(t: seq<TreeNode>, filename: string) {
    && |t| > 0
    && t[0].parent.None?
    && t[0].tag == Tag(t[0].cursor)
    && forall j :: 0 < j < |t| ==>
         && t[j].parent.Some?
         && t[j].parent.value < j
         && t[j].cursor in t[t[j].parent.value].cursor.children
         && IsNodeFromFile(t[j].cursor, filename)
         && t[j].tag == Tag(t[j].cursor)
  }

  /** Node `k` of a forest created below `parent` from index `start` on: it is an accepted
      cursor with its tag, and its parent is either `parent` (and the cursor one of `kids`) or
      an earlier node of the same forest that reported it. */
  ghost predicate ForestEntry(f: seq<TreeNode>, k: nat, kids: seq<Cursor>, filename: string, parent: nat, start: nat) {
    && k < |f|
    && f[k].parent.Some?
    && f[k].tag == Tag(f[k].cursor)
    && IsNodeFromFile(f[k].cursor, filename)
    && ((f[k].parent.value == parent && f[k].cursor in kids) ||
        (start <= f[k].parent.value < start + k && f[k].cursor in f[f[k].parent.value - start].cursor.children))
  }

  lemma {:induction false} ForestShape(kids: seq<Cursor>, filename: string, parent: nat, start: nat)
    requires parent < start
    ensures forall k :: 0 <= k < |Forest(kids, filename, parent, start)| ==>
      ForestEntry(Forest(kids, filename, parent, start), k, kids, filename, parent, start)
    decreases kids
  {
    if kids != [] {
      var init, last := kids[..|kids| - 1], kids[|kids| - 1];
      var fi := Forest(init, filename, parent, start);
      var t := start + |fi|;
      var st := Subtree(last, filename, parent, t);
      var f := fi + st;
      ForestShape(init, filename, parent, start);
      forall k | 0 <= k < |f| ensures ForestEntry(f, k, kids, filename, parent, start) {
        if k < |fi| {
          assert ForestEntry(fi, k, init, filename, parent, start);
          assert f[k] == fi[k];
          if !(fi[k].parent.value == parent && fi[k].cursor in init) {
            assert f[fi[k].parent.value - start] == fi[fi[k].parent.value - start];
          }
        } else {
          var fc := Forest(last.children, filename, t, t + 1);
          assert st == [TreeNode(last, Tag(last), Some(parent))] + fc;
          if k > |fi| {
            ForestShape(last.children, filename, t, t + 1);
            assert ForestEntry(fc, k - |fi| - 1, last.children, filename, t, t + 1);
            assert f[k] == fc[k - |fi| - 1];
            if fc[k - |fi| - 1].parent.value == t {
              assert f[t - start] == st[0];
            } else {
              var q := fc[k - |fi| - 1].parent.value;
              assert f[q - start] == fc[q - t - 1];
            }
          }
        }
      }
    }
  }

  lemma {:induction false} ChildCursorsAppend(a: seq<TreeNode>, b: seq<TreeNode>, i: nat)
    ensures ChildCursors(a + b, i) == ChildCursors(a, i) + ChildCursors(b, i)
    decreases |b|
  {
    if b == [] {
      assert a + b == a;
    } else {
      var last := b[|b| - 1];
      var own := if last.parent == Some(i) then [last.cursor] else [];
      assert (a + b)[..|a + b| - 1] == a + b[..|b| - 1];
      assert (a + b)[|a + b| - 1] == last;
      ChildCursorsAppend(a, b[..|b| - 1], i);
      calc {
        ChildCursors(a + b, i);
        ChildCursors(a + b[..|b| - 1], i) + own;
        ChildCursors(a, i) + ChildCursors(b[..|b| - 1], i) + own;
        ChildCursors(a, i) + ChildCursors(b, i);
      }
    }
  }

  lemma {:induction false} ChildCursorsNone(t: seq<TreeNode>, i: nat)
    requires forall k :: 0 <= k < |t| ==> t[k].parent != Some(i)
    ensures ChildCursors(t, i) == []
  {
    if t != [] {
      ChildCursorsNone(t[..|t| - 1], i);
    }
  }

  /** No node of a forest created below `parent` from index `start` hangs under a node `q`
      other than `parent` that lies before `start` or at or after the forest's end. */
  lemma ForestNoChildren(kids: seq<Cursor>, filename: string, parent: nat, start: nat, q: nat)
    requires parent < start && q != parent
    requires q < start || q >= start + |Forest(kids, filename, parent, start)|
    ensures ChildCursors(Forest(kids, filename, parent, start), q) == []
  {
    var f := Forest(kids, filename, parent, start);
    ForestShape(kids, filename, parent, start);
    forall k | 0 <= k < |f| ensures f[k].parent != Some(q) {
      assert ForestEntry(f, k, kids, filename, parent, start);
    }
    ChildCursorsNone(f, q);
  }

  /** The subtree of one child cursor adds that cursor, if accepted, to the children of
      `parent` and no other child to it. */
  lemma SubtreeParentChildren(c: Cursor, filename: string, parent: nat, t: nat)
    requires parent < t
    ensures ChildCursors(Subtree(c, filename, parent, t), parent) ==
      if IsNodeFromFile(c, filename) then [c] else []
  {
    if IsNodeFromFile(c, filename) {
      var node := TreeNode(c, Tag(c), Some(parent));
      var fc := Forest(c.children, filename, t, t + 1);
      ChildCursorsAppend([node], fc, parent);
      assert ChildCursors([node], parent) == [c] by {
        assert [node][..0] == [];
      }
      ForestNoChildren(c.children, filename, t, t + 1, parent);
    }
  }

  /** The subtree of one child cursor, created from index `t` on, adds no child to a node
      `q` other than `parent` that comes before `t`. */
  lemma SubtreeNoChildren(c: Cursor, filename: string, parent: nat, t: nat, q: nat)
    requires parent < t && q != parent && q < t
    ensures ChildCursors(Subtree(c, filename, parent, t), q) == []
  {
    if IsNodeFromFile(c, filename) {
      var node := TreeNode(c, Tag(c), Some(parent));
      var fc := Forest(c.children, filename, t, t + 1);
      ChildCursorsAppend([node], fc, q);
      assert ChildCursors([node], q) == [] by {
        assert [node][..0] == [];
      }
      ForestNoChildren(c.children, filename, t, t + 1, q);
    }
  }

  /** The children of `parent` within the forest are exactly the accepted `kids`, in order. */
  lemma {:induction false} ForestParentChildren(kids: seq<Cursor>, filename: string, parent: nat, start: nat)
    requires parent < start
    ensures ChildCursors(Forest(kids, filename, parent, start), parent) == Accepted(kids, filename)
    decreases kids
  {
    if kids != [] {
      var init, last := kids[..|kids| - 1], kids[|kids| - 1];
      var fi := Forest(init, filename, parent, start);
      var t := start + |fi|;
      var st := Subtree(last, filename, parent, t);
      assert Forest(kids, filename, parent, start) == fi + st;
      ForestParentChildren(init, filename, parent, start);
      ChildCursorsAppend(fi, st, parent);
      SubtreeParentChildren(last, filename, parent, t);
      assert Accepted(kids, filename) == Accepted(init, filename) + if IsNodeFromFile(last, filename) then [last] else [];
    }
  }

  /** The children of node `start + k`, created within the forest, are exactly the accepted
      children of its cursor, in order. */
  lemma {:induction false} ForestNodeChildren(kids: seq<Cursor>, filename: string, parent: nat, start: nat, k: nat)
    requires parent < start && k < |Forest(kids, filename, parent, start)|
    ensures ChildCursors(Forest(kids, filename, parent, start), start + k) ==
      Accepted(Forest(kids, filename, parent, start)[k].cursor.children, filename)
    decreases kids
  {
    var f := Forest(kids, filename, parent, start);
    var init, last := kids[..|kids| - 1], kids[|kids| - 1];
    var fi := Forest(init, filename, parent, start);
    var t := start + |fi|;
    var st := Subtree(last, filename, parent, t);
    assert f == fi + st;
    ChildCursorsAppend(fi, st, start + k);
    if k < |fi| {
      assert f[k] == fi[k];
      ForestNodeChildren(init, filename, parent, start, k);
      SubtreeNoChildren(last, filename, parent, t, start + k);
    } else {
      ForestNoChildren(init, filename, parent, start, start + k);
      SubtreeNodeChildren(last, filename, parent, t, k - |fi|);
    }
  }

  /** Within the subtree of one accepted child cursor created from index `t` on, the children
      of node `t + j` are exactly the accepted children of its cursor, in order. */
  lemma {:induction false} SubtreeNodeChildren(c: Cursor, filename: string, parent: nat, t: nat, j: nat)
    requires parent < t && j < |Subtree(c, filename, parent, t)|
    ensures ChildCursors(Subtree(c, filename, parent, t), t + j) ==
      Accepted(Subtree(c, filename, parent, t)[j].cursor.children, filename)
    decreases c
  {
    var node := TreeNode(c, Tag(c), Some(parent));
    var fc := Forest(c.children, filename, t, t + 1);
    var st := Subtree(c, filename, parent, t);
    assert st == [node] + fc;
    ChildCursorsAppend([node], fc, t + j);
    assert ChildCursors([node], t + j) == [] by {
      assert [node][..0] == [];
    }
    assert ChildCursors(st, t + j) == ChildCursors(fc, t + j);
    if j == 0 {
      ForestParentChildren(c.children, filename, t, t + 1);
      assert st[0] == node;
    } else {
      assert st[j] == fc[j - 1];
      ForestNodeChildren(c.children, filename, t, t + 1, j - 1);
      assert (t + 1) + (j - 1) == t + j;
    }
  }

  /** The tree returned by `get_tree` satisfies the arena invariants: its root is the
      translation unit's cursor, and every other node is an in-file cursor attached to exactly
      one parent, the node whose cursor reported it. A rejected cursor therefore never has a
      node, and neither does anything below it. */
  lemma BuiltTreeWellFormed(unit: TranslationUnit)
    ensures WellFormed(BuiltTree(unit), unit.spelling)
    ensures BuiltTree(unit)[0].cursor == unit.cursor
  {
    var f := Forest(unit.cursor.children, unit.spelling, 0, 1);
    var t := BuiltTree(unit);
    ForestShape(unit.cursor.children, unit.spelling, 0, 1);
    forall j | 0 < j < |t|
      ensures t[j].parent.Some? && t[j].parent.value < j
      ensures t[j].cursor in t[t[j].parent.value].cursor.children
      ensures IsNodeFromFile(t[j].cursor, unit.spelling) && t[j].tag == Tag(t[j].cursor)
    {
      assert t[j] == f[j - 1];
      assert ForestEntry(f, j - 1, unit.cursor.children, unit.spelling, 0, 1);
      if t[j].parent.value != 0 {
        assert t[t[j].parent.value] == f[t[j].parent.value - 1];
      }
    }
  }

  /** In the tree returned by `get_tree`, the children of every node are exactly the children
      its cursor reports that lie in the translation unit's file, in the order reported. */
  lemma BuiltTreeChildren(unit: TranslationUnit, i: nat)
    requires i < |BuiltTree(unit)|
    ensures ChildCursors(BuiltTree(unit), i) == Accepted(BuiltTree(unit)[i].cursor.children, unit.spelling)
  {
    var root := TreeNode(unit.cursor, Tag(unit.cursor), None);
    var f := Forest(unit.cursor.children, unit.spelling, 0, 1);
    ChildCursorsAppend([root], f, i);
    assert ChildCursors([root], i) == [] by {
      assert [root][..0] == [];
    }
    if i == 0 {
      ForestParentChildren(unit.cursor.children, unit.spelling, 0, 1);
    } else {
      assert BuiltTree(unit)[i] == f[i - 1];
      ForestNodeChildren(unit.cursor.children, unit.spelling, 0, 1, i - 1);
    }
  }

  /** Reads a tag back: the text before the first ':' and the text between the quotes after it. */
  function SplitTag(tag: string): Option<(string, string)> {
    if tag == [] then None
    else if tag[0] == ':' then
      if |tag| >= 3 && tag[1] == '\'' && tag[|tag| - 1] == '\'' then Some(([], tag[2..|tag| - 1])) else None
    else
      match SplitTag(tag[1..])
      case None => None
      case Some((kind, spelling)) => Some(([tag[0]] + kind, spelling))
  }

  /** A tag names its cursor's kind and spelling: both can be read back from it, since kind
      names (CursorKind enumerants) contain no ':'. */
  lemma {:induction false} TagRoundTrip(c: Cursor)
    requires ':' !in c.kind
    ensures SplitTag(Tag(c)) == Some((c.kind, c.spelling))
  {
    TagRoundTripFrom(c.kind, c.spelling);
  }

  lemma {:induction false} TagRoundTripFrom(kind: string, spelling: string)
    requires ':' !in kind
    ensures SplitTag(kind + ":'" + spelling + "'") == Some((kind, spelling))
  {
    var tag := kind + ":'" + spelling + "'";
    if kind == [] {
      assert tag == ":'" + spelling + "'";
      assert tag[2..|tag| - 1] == spelling;
    } else {
      assert tag[1..] == kind[1..] + ":'" + spelling + "'";
      TagRoundTripFrom(kind[1..], spelling);
      assert [kind[0]] + kind[1..] == kind;
    }
  }
}
