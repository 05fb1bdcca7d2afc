/** The tree part of a subtable's wire image: `FillTreeNodes_` flattens the
  * subtree under the start node into a pre-order list of (node, parent index)
  * pairs, and `load` re-links the list into a tree, choosing the left or the
  * right child slot of the parent by comparing `begin` offsets
  * (core/table/sub_table.h). */
module SubTableTree {

  /** A point range (begin, count): `PointSerializeFlagType`. */
  datatype PointSerializeFlag = PointSerializeFlag(begin: int, count: int)
  {
    /** One past the last point of the range. */
    function End(): (e: int)
      ensures e - begin == count
    {
      begin + count
    }
  }

  /** The flag a default-constructed `PointSerializeFlagType` holds. */
  function DefaultFlag(): (f: PointSerializeFlag)
    ensures f.begin == 0 && f.count == 0 && f.End() == f.begin
  {
    PointSerializeFlag(0, 0)
  }

  /** A tree node pointer: `Nil` is a null pointer; a node holds the point
    * range it covers, whether it is a leaf and its two child pointers. */
  datatype Tree =
    | Nil
    | Node(begin: int, count: nat, leaf: bool, left: Tree, right: Tree)

  /** One entry of the flattened list: the node's own fields and the index of
    * its parent in the list (-1 for the start node). */
  datatype FlatNode = FlatNode(begin: int, count: nat, leaf: bool, parent: int)

  /** The number of entries `FillTreeNodes_` produces for a subtree: a leaf's
    * child pointers are not followed. */
  function Size(t: Tree): nat
  {
    match t
    case Nil => 0
    case Node(_, _, leaf, l, r) => if leaf then 1 else 1 + Size(l) + Size(r)
  }

  /** The pre-order list `FillTreeNodes_` appends for subtree `t` when the
    * list already holds `base` entries and `t` hangs under entry `parent`. */
  function Flatten(t: Tree, parent: int, base: nat): (s: seq<FlatNode>)
    ensures |s| == Size(t)
  {
    match t
    case Nil => []
    case Node(b, c, leaf, l, r) =>
      [FlatNode(b, c, leaf, parent)] +
      (if leaf then []
       else Flatten(l, base, base + 1) + Flatten(r, base, base + 1 + Size(l)))
  }

  /** A tree `load` can rebuild exactly: a leaf has no children; an inner node
    * has both, the left one starting at the node's own `begin` and the right
    * one elsewhere (as in a kd-tree, whose right child starts after the left
    * child's points). */
  ghost predicate WellFormed(t: Tree)
  {
    match t
    case Nil => true
    case Node(b, _, leaf, l, r) =>
      if leaf then l == Nil && r == Nil
      else
        l.Node? && r.Node? && l.begin == b && r.begin != b &&
        WellFormed(l) && WellFormed(r)
  }

  /** `FillTreeNodes_`: appends the subtree under `node` to `sortedNodes` in
    * pre-order and, for the start node only (negative parent index) and only
    * when `addFlag` is set, appends the start node's (begin, count) range to
    * `flags`. */
  method FillTreeNodes(node: Tree, parentIndex: int, sortedNodes: seq<FlatNode>,
                       flags: seq<PointSerializeFlag>, addFlag: bool)
    returns (sortedOut: seq<FlatNode>, flagsOut: seq<PointSerializeFlag>)
    requires parentIndex < |sortedNodes|
    ensures sortedOut == sortedNodes + Flatten(node, parentIndex, |sortedNodes|)
    ensures flagsOut == flags +
      (if node.Node? && parentIndex < 0 && addFlag
       then [PointSerializeFlag(node.begin, node.count)] else [])
    decreases node
  {
    sortedOut, flagsOut := sortedNodes, flags;
    if node.Node? {
      if parentIndex < 0 && addFlag {
        flagsOut := flagsOut + [PointSerializeFlag(node.begin, node.count)];
      }
      sortedOut := sortedOut + [FlatNode(node.begin, node.count, node.leaf, parentIndex)];
      if !node.leaf {
        var here := |sortedOut| - 1;
        var f := flagsOut;
        sortedOut, flagsOut := FillTreeNodes(node.left, here, sortedOut, flagsOut, addFlag);
        sortedOut, flagsOut := FillTreeNodes(node.right, here, sortedOut, flagsOut, addFlag);
        assert flagsOut == f;
      }
    }
  }

  /** Pre-order property of the flattened list: the first entry carries the
    * given parent and every later entry's parent lies strictly before it and
    * no earlier than the subtree's own first entry. */
  lemma {:induction false} FlattenParents(t: Tree, parent: int, base: nat)
    ensures |Flatten(t, parent, base)| > 0 ==> Flatten(t, parent, base)[0].parent == parent
    ensures ParentsWithin(Flatten(t, parent, base), base)
  {
    match t
    case Nil =>
    case Node(b, c, leaf, l, r) =>
      if leaf {
        assert Flatten(t, parent, base) == [FlatNode(b, c, leaf, parent)];
      } else {
        var fl := Flatten(l, base, base + 1);
        var fr := Flatten(r, base, base + 1 + Size(l));
        FlattenParents(l, base, base + 1);
        FlattenParents(r, base, base + 1 + Size(l));
        assert Flatten(t, parent, base) == [FlatNode(b, c, leaf, parent)] + (fl + fr);
        ConcatParents(FlatNode(b, c, leaf, parent), fl, fr, base);
      }
  }

  /** Every entry after the first has its parent at or after `base` and
    * strictly before its own position `base + k`. */
  ghost predicate ParentsWithin(s: seq<FlatNode>, base: nat)
  {
    forall k :: 1 <= k < |s| ==> base <= s[k].parent < base + k
  }

  lemma {:induction false} ConcatParents(head: FlatNode, fl: seq<FlatNode>, fr: seq<FlatNode>, base: nat)
    requires |fl| > 0 ==> fl[0].parent == base
    requires |fr| > 0 ==> fr[0].parent == base
    requires ParentsWithin(fl, base + 1) && ParentsWithin(fr, base + 1 + |fl|)
    ensures ParentsWithin([head] + (fl + fr), base)
  {
    var s := [head] + (fl + fr);
    forall k | 1 <= k < |s|
      ensures base <= s[k].parent < base + k
    {
      if k < 1 + |fl| {
        assert s[k] == fl[k - 1];
      } else {
        assert s[k] == fr[k - 1 - |fl|];
      }
    }
  }

  /** The list `FillTreeNodes_` produces from the start node: the start node
    * comes first with parent -1 and every other entry's parent precedes it. */
  lemma {:induction false} StartNodeFlattening(t: Tree)
    requires t.Node?
    ensures Flatten(t, -1, 0)[0] == FlatNode(t.begin, t.count, t.leaf, -1)
    ensures ValidParents(Flatten(t, -1, 0))
  {
    FlattenParents(t, -1, 0);
  }

  /** A list `load` can re-link: non-empty, the first entry is the root, and
    * every other entry names an earlier entry as its parent. */
  predicate ValidParents(nodes: seq<FlatNode>)
  {
    |nodes| > 0 && forall i :: 1 <= i < |nodes| ==> 0 <= nodes[i].parent < i
  }

  /** Child links after `load` has attached entries 1 .. k-1: entry i goes
    * to the left slot of its parent when it starts where the parent starts,
    * otherwise to the right slot; a later attachment overwrites an earlier
    * one; -1 means no child. */
  function Links(nodes: seq<FlatNode>, k: nat): (lr: (seq<int>, seq<int>))
    requires ValidParents(nodes) && k <= |nodes|
    ensures ForwardLinks(|nodes|, lr.0, lr.1)
  {
    if k <= 1 then (seq(|nodes|, _ => -1), seq(|nodes|, _ => -1))
    else
      var (l, r) := Links(nodes, k - 1);
      var p := nodes[k - 1].parent;
      if nodes[p].begin == nodes[k - 1].begin then (l[p := k - 1], r) else (l, r[p := k - 1])
  }

  /** Entry i is a left-slot (`wantLeft`) or right-slot candidate child of
    * entry j. */
  predicate IsChild(nodes: seq<FlatNode>, j: int, i: int, wantLeft: bool)
    requires 0 <= i < |nodes|
  {
    1 <= i && nodes[i].parent == j &&
    0 <= j < |nodes| && (nodes[j].begin == nodes[i].begin) == wantLeft
  }

  function Side(lr: (seq<int>, seq<int>), wantLeft: bool): seq<int>
  {
    if wantLeft then lr.0 else lr.1
  }

  /** One attachment step changes slot `wantLeft` of entry j exactly when
    * entry k-1 is a candidate child for that slot. */
  lemma {:induction false} LinksStep(nodes: seq<FlatNode>, k: nat, j: int, wantLeft: bool)
    requires ValidParents(nodes) && 2 <= k <= |nodes| && 0 <= j < |nodes|
    ensures Side(Links(nodes, k), wantLeft)[j] ==
              if IsChild(nodes, j, k - 1, wantLeft) then k - 1
              else Side(Links(nodes, k - 1), wantLeft)[j]
  {
    var lr := Links(nodes, k - 1);
    var p := nodes[k - 1].parent;
    assert Links(nodes, k) ==
      if nodes[p].begin == nodes[k - 1].begin then (lr.0[p := k - 1], lr.1)
      else (lr.0, lr.1[p := k - 1]);
  }

  /** When entry j has exactly one candidate child `c` for a slot among the
    * first k entries, that slot holds `c`. */
  lemma {:induction false} LinksUniqueChild(nodes: seq<FlatNode>, k: nat, j: int, c: int, wantLeft: bool)
    requires ValidParents(nodes) && k <= |nodes| && 0 <= j < |nodes|
    requires 0 <= c < k && IsChild(nodes, j, c, wantLeft)
    requires forall i :: 0 <= i < k && IsChild(nodes, j, i, wantLeft) ==> i == c
    ensures Side(Links(nodes, k), wantLeft)[j] == c
  {
    LinksStep(nodes, k, j, wantLeft);
    if k - 1 != c {
      LinksUniqueChild(nodes, k - 1, j, c, wantLeft);
    }
  }

  /** When entry j has no candidate child for a slot among the first k
    * entries, that slot is -1. */
  lemma {:induction false} LinksNoChild(nodes: seq<FlatNode>, k: nat, j: int, wantLeft: bool)
    requires ValidParents(nodes) && k <= |nodes| && 0 <= j < |nodes|
    requires forall i :: 0 <= i < k ==> !IsChild(nodes, j, i, wantLeft)
    ensures Side(Links(nodes, k), wantLeft)[j] == -1
  {
    if k > 1 {
      LinksStep(nodes, k, j, wantLeft);
      LinksNoChild(nodes, k - 1, j, wantLeft);
    }
  }

  /** Links that point forward (or are -1), so that following them ends. */
  predicate ForwardLinks(n: nat, left: seq<int>, right: seq<int>)
  {
    |left| == n && |right| == n &&
    forall j :: 0 <= j < n ==>
      (left[j] == -1 || j < left[j] < n) && (right[j] == -1 || j < right[j] < n)
  }

  /** The tree reachable from entry j by following the child links. */
  function Decode(nodes: seq<FlatNode>, left: seq<int>, right: seq<int>, j: nat): Tree
    requires ForwardLinks(|nodes|, left, right) && j < |nodes|
    decreases |nodes| - j
  {
    Node(nodes[j].begin, nodes[j].count, nodes[j].leaf,
         if left[j] < 0 then Nil else Decode(nodes, left, right, left[j]),
         if right[j] < 0 then Nil else Decode(nodes, left, right, right[j]))
  }

  /** The tree `load` rebuilds from a list: the one reachable from entry 0. */
  function Rebuild(nodes: seq<FlatNode>): Tree
    requires ValidParents(nodes)
  {
    var (l, r) := Links(nodes, |nodes|);
    Decode(nodes, l, r, 0)
  }

  /** Subtree `t` sits at `base` in `nodes`, exactly as `FillTreeNodes_`
    * lays it out under entry `parent`. */
  ghost predicate LaidOut(t: Tree, parent: int, base: nat, nodes: seq<FlatNode>)
  {
    base + Size(t) <= |nodes| &&
    forall k :: 0 <= k < Size(t) ==> nodes[base + k] == Flatten(t, parent, base)[k]
  }

  /** No entry outside [lo, hi) names an entry inside it as its parent. */
  ghost predicate Closed(nodes: seq<FlatNode>, lo: int, hi: int)
  {
    forall i :: 0 <= i < |nodes| && !(lo <= i < hi) ==> !(lo <= nodes[i].parent < hi)
  }

  /** A leaf laid out in a closed range has no candidate children. */
  lemma {:induction false} LeafHasNoChildren(t: Tree, parent: int, base: nat, nodes: seq<FlatNode>)
    requires t.Node? && t.leaf && parent < base
    requires LaidOut(t, parent, base, nodes) && Closed(nodes, base, base + Size(t))
    ensures forall i :: 0 <= i < |nodes| ==> !IsChild(nodes, base, i, true) && !IsChild(nodes, base, i, false)
  {
    assert nodes[base + 0] == Flatten(t, parent, base)[0];
  }

  /** The entries of a laid-out subtree: its first entry names `parent`, every
    * other entry names an entry of the subtree before it. */
  lemma {:induction false} EntryParent(t: Tree, parent: int, base: nat, nodes: seq<FlatNode>, i: int)
    requires LaidOut(t, parent, base, nodes) && base <= i < base + Size(t)
    ensures i == base ==> nodes[i].parent == parent
    ensures i > base ==> base <= nodes[i].parent < i
  {
    FlattenParents(t, parent, base);
    assert nodes[base + (i - base)] == Flatten(t, parent, base)[i - base];
  }

  /** The entries of an inner node: the node itself, then its left subtree,
    * then its right subtree. */
  lemma {:induction false} ChildrenLaidOut(t: Tree, parent: int, base: nat, nodes: seq<FlatNode>)
    requires t.Node? && !t.leaf && LaidOut(t, parent, base, nodes)
    ensures nodes[base] == FlatNode(t.begin, t.count, t.leaf, parent)
    ensures LaidOut(t.left, base, base + 1, nodes)
    ensures LaidOut(t.right, base, base + 1 + Size(t.left), nodes)
  {
    var l, r := t.left, t.right;
    var s := Flatten(t, parent, base);
    var fl := Flatten(l, base, base + 1);
    var fr := Flatten(r, base, base + 1 + Size(l));
    assert s == [FlatNode(t.begin, t.count, t.leaf, parent)] + fl + fr;
    forall k | 0 <= k < Size(l) ensures nodes[base + 1 + k] == fl[k] {
      assert nodes[base + (1 + k)] == s[1 + k];
    }
    forall k | 0 <= k < Size(r) ensures nodes[base + 1 + Size(l) + k] == fr[k] {
      assert nodes[base + (1 + Size(l) + k)] == s[1 + Size(l) + k];
    }
    assert nodes[base + 0] == s[0];
  }

  /** The two children of a well-formed inner node are laid out right after
    * it, each in a closed range, and they are its only candidate children:
    * the left one for the left slot, the right one for the right slot. */
  lemma {:induction false} InnerChildren(t: Tree, parent: int, base: nat, nodes: seq<FlatNode>)
    requires t.Node? && !t.leaf && WellFormed(t) && parent < base
    requires LaidOut(t, parent, base, nodes) && Closed(nodes, base, base + Size(t))
    ensures LaidOut(t.left, base, base + 1, nodes)
    ensures LaidOut(t.right, base, base + 1 + Size(t.left), nodes)
    ensures Closed(nodes, base + 1, base + 1 + Size(t.left))
    ensures Closed(nodes, base + 1 + Size(t.left), base + Size(t))
    ensures forall i :: 0 <= i < |nodes| && IsChild(nodes, base, i, true) ==> i == base + 1
    ensures forall i :: 0 <= i < |nodes| && IsChild(nodes, base, i, false) ==> i == base + 1 + Size(t.left)
    ensures base + 1 < |nodes| && IsChild(nodes, base, base + 1, true)
    ensures base + 1 + Size(t.left) < |nodes| && IsChild(nodes, base, base + 1 + Size(t.left), false)
  {
    var l, r := t.left, t.right;
    var li, ri := base + 1, base + 1 + Size(l);
    ChildrenLaidOut(t, parent, base, nodes);
    EntryParent(l, base, li, nodes, li);
    EntryParent(r, base, ri, nodes, ri);
    assert nodes[li + 0] == Flatten(l, base, li)[0];
    assert nodes[ri + 0] == Flatten(r, base, ri)[0];
    forall i | 0 <= i < |nodes| && nodes[i].parent == base ensures i == li || i == ri {
      if li <= i < li + Size(l) {
        EntryParent(l, base, li, nodes, i);
      } else if ri <= i < ri + Size(r) {
        EntryParent(r, base, ri, nodes, i);
      }
    }
    forall i | 0 <= i < |nodes| && !(li <= i < li + Size(l)) ensures !(li <= nodes[i].parent < li + Size(l)) {
      if ri <= i < ri + Size(r) {
        EntryParent(r, base, ri, nodes, i);
      }
    }
    forall i | 0 <= i < |nodes| && !(ri <= i < ri + Size(r)) ensures !(ri <= nodes[i].parent < ri + Size(r)) {
      if li <= i < li + Size(l) {
        EntryParent(l, base, li, nodes, i);
      }
    }
  }

  /** The core of the round trip: a well-formed subtree laid out at `base`
    * inside a list whose other entries never name one of its entries as
    * parent is rebuilt exactly from the final links. */
  lemma {:induction false} DecodeFlatten(t: Tree, parent: int, base: nat, nodes: seq<FlatNode>)
    requires t.Node? && WellFormed(t) && parent < base && ValidParents(nodes)
    requires LaidOut(t, parent, base, nodes) && Closed(nodes, base, base + Size(t))
    ensures Decode(nodes, Links(nodes, |nodes|).0, Links(nodes, |nodes|).1, base) == t
    decreases t
  {
    var n := |nodes|;
    var lr := Links(nodes, n);
    RootEntry(t, parent, base, nodes);
    if t.leaf {
      LeafHasNoChildren(t, parent, base, nodes);
      LinksNoChild(nodes, n, base, true);
      LinksNoChild(nodes, n, base, false);
      assert Decode(nodes, lr.0, lr.1, base) == Node(t.begin, t.count, t.leaf, Nil, Nil);
    } else {
      var li, ri := base + 1, base + 1 + Size(t.left);
      InnerChildren(t, parent, base, nodes);
      LinksUniqueChild(nodes, n, base, li, true);
      LinksUniqueChild(nodes, n, base, ri, false);
      DecodeFlatten(t.left, base, li, nodes);
      DecodeFlatten(t.right, base, ri, nodes);
      assert Decode(nodes, lr.0, lr.1, base) ==
        Node(t.begin, t.count, t.leaf, Decode(nodes, lr.0, lr.1, li), Decode(nodes, lr.0, lr.1, ri));
    }
  }

  lemma {:induction false} RootEntry(t: Tree, parent: int, base: nat, nodes: seq<FlatNode>)
    requires t.Node? && LaidOut(t, parent, base, nodes)
    ensures nodes[base] == FlatNode(t.begin, t.count, t.leaf, parent)
  {
    assert nodes[base + 0] == Flatten(t, parent, base)[0];
  }

  /** Round trip: rebuilding the list `FillTreeNodes_` makes from a
    * well-formed start node gives back the same tree, so flattening it again
    * gives back the same node count and parent-index list. */
  lemma {:induction false} RebuildFlatten(t: Tree)
    requires t.Node? && WellFormed(t)
    ensures ValidParents(Flatten(t, -1, 0))
    ensures Rebuild(Flatten(t, -1, 0)) == t
    ensures Flatten(Rebuild(Flatten(t, -1, 0)), -1, 0) == Flatten(t, -1, 0)
  {
    var s := Flatten(t, -1, 0);
    StartNodeFlattening(t);
    DecodeFlatten(t, -1, 0, s);
  }

  /** The pointer-correction loop of `load`: for every entry after the first,
    * set the parent's left child pointer when the entry starts where the
    * parent starts, otherwise its right child pointer. Pointers are entry
    * indices here; -1 is a null pointer. */
  method RelinkNodes(nodes: seq<FlatNode>) returns (left: array<int>, right: array<int>)
    requires ValidParents(nodes)
    ensures fresh(left) && fresh(right)
    ensures left[..] == Links(nodes, |nodes|).0 && right[..] == Links(nodes, |nodes|).1
  {
    left := new int[|nodes|](_ => -1);
    right := new int[|nodes|](_ => -1);
    var i := 1;
    while i < |nodes|
      invariant 1 <= i <= |nodes|
      invariant left[..] == Links(nodes, i).0 && right[..] == Links(nodes, i).1
    {
      var parentIndex := nodes[i].parent;
      if nodes[parentIndex].begin == nodes[i].begin {
        left[parentIndex] := i;
      } else {
        right[parentIndex] := i;
      }
      i := i + 1;
    }
  }
}
