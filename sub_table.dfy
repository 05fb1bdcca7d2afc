/** A subtable: a handle onto the subtree under a start node of some rank's
  * table, which either owns that table or only aliases it, carries a lock
  * naming the rank that holds it, and is saved to / loaded from a flat
  * integer image (core/table/sub_table.h). */
module SubTables {
  import opened Wrappers
  import opened SubTableTree

  /** The identity of a subtable: (table rank, start-node begin, start-node
    * count), `SubTableIDType`. */
  datatype SubTableIdType = SubTableIdType(rank: int, begin: int, count: nat)

  /** The rank a default-constructed table reports before `load` sets it;
    * the table class is not part of this model, 0 stands for its default. */
  const FreshTableRank: int := 0

  /** The parts of the underlying table that a subtable writes to. */
  class Table {
    var rank: int
    /** The tree root pointer (`get_tree_offset_ptr`). */
    var tree: Tree
    var entirePointsAvailable: bool
    /** The (begin, count) ranges registered with `add_begin_count_pairs`. */
    var beginCountPairs: seq<PointSerializeFlag>

    constructor ()
      ensures rank == FreshTableRank && tree == Nil
      ensures entirePointsAvailable && beginCountPairs == []
    {
      rank := FreshTableRank;
      tree := Nil;
      entirePointsAvailable := true;
      beginCountPairs := [];
    }
  }

  /** The value of a subtable handle when it is copied into a cache slot or a
    * queue entry: every field, with the table pointer replaced by the rank of
    * the table it points to. */
  datatype SubTableState = SubTableState(
    serializeNewFromOldMapping: bool,
    cacheBlockId: int,
    lockedMpiRank: int,
    rank: int,
    startNode: Tree,
    originatingRank: int,
    isAlias: bool,
    flags: seq<PointSerializeFlag>)
  {
    /** `subtable_id()`. */
    function Id(): (id: SubTableIdType)
      requires startNode.Node?
      ensures id.rank == rank && id.begin == startNode.begin && id.count == startNode.count
    {
      SubTableIdType(rank, startNode.begin, startNode.count)
    }

    /** `is_locked()`. */
    predicate IsLocked()
    {
      lockedMpiRank >= 0
    }
  }

  /** What `Alias` makes of a handle: the same fields, never owning. */
  function AliasOf(s: SubTableState): (a: SubTableState)
    ensures a.isAlias
    ensures a.startNode.Node? ==> s.startNode.Node? && a.Id() == s.Id()
    ensures a.(isAlias := s.isAlias) == s
  {
    s.(isAlias := true)
  }

  // ---------------------------------------------------------------------
  // The flat integer image written by `save` and read by `load`.
  // ---------------------------------------------------------------------

  /** The parts of a subtable that `save` writes: the rank, the pre-order node
    * list, the point ranges and whether the new-from-old mapping follows. */
  datatype SubTableImage = SubTableImage(
    rank: int,
    nodes: seq<FlatNode>,
    flags: seq<PointSerializeFlag>,
    serializeNewFromOldMapping: bool)

  function EncodeBool(b: bool): int
  {
    if b then 1 else 0
  }

  function EncodeNodes(nodes: seq<FlatNode>): (ws: seq<int>)
    ensures |ws| == 4 * |nodes|
  {
    if nodes == [] then []
    else
      [nodes[0].begin, nodes[0].count, EncodeBool(nodes[0].leaf), nodes[0].parent] +
      EncodeNodes(nodes[1..])
  }

  function EncodeFlags(flags: seq<PointSerializeFlag>): (ws: seq<int>)
    ensures |ws| == 2 * |flags|
  {
    if flags == [] then [] else [flags[0].begin, flags[0].count] + EncodeFlags(flags[1..])
  }

  /** The image as written: rank, node count, the nodes each followed by its
    * parent index, the number of point ranges, the ranges, and the
    * new-from-old flag. */
  function EncodeImage(img: SubTableImage): seq<int>
  {
    [img.rank, |img.nodes|] + EncodeNodes(img.nodes) +
    [|img.flags|] + EncodeFlags(img.flags) + [EncodeBool(img.serializeNewFromOldMapping)]
  }

  function ParseBool(w: int): Option<bool>
  {
    if w == 0 then Some(false) else if w == 1 then Some(true) else None
  }

  function ParseNodes(ws: seq<int>, n: nat): Option<(seq<FlatNode>, seq<int>)>
    decreases n
  {
    if n == 0 then Some(([], ws))
    else if |ws| < 4 || ws[1] < 0 || ParseBool(ws[2]).None? then None
    else
      match ParseNodes(ws[4..], n - 1)
      case None => None
      case Some((rest, tail)) =>
        Some(([FlatNode(ws[0], ws[1], ParseBool(ws[2]).value, ws[3])] + rest, tail))
  }

  function ParseFlags(ws: seq<int>, n: nat): Option<(seq<PointSerializeFlag>, seq<int>)>
    decreases n
  {
    if n == 0 then Some(([], ws))
    else if |ws| < 2 then None
    else
      match ParseFlags(ws[2..], n - 1)
      case None => None
      case Some((rest, tail)) => Some(([PointSerializeFlag(ws[0], ws[1])] + rest, tail))
  }

  /** Reads one image from the front of `ws`, returning it and what follows.
    * The C++ `load` checks nothing. The model answers None on input that
    * ends early, on an empty node list, on a node whose parent is not
    * strictly before it (a forward or self parent, which `load` links all
    * the same), on a negative count of nodes, of points in a node or of
    * point ranges, and on a boolean word other than 0 or 1. */
  function ParseImage(ws: seq<int>): (r: Option<(SubTableImage, seq<int>)>)
    ensures r.Some? ==> ValidParents(r.value.0.nodes)
  {
    if |ws| < 2 || ws[1] < 0 then None
    else
      match ParseNodes(ws[2..], ws[1])
      case None => None
      case Some((nodes, ws1)) =>
        if !ValidParents(nodes) || |ws1| < 1 || ws1[0] < 0 then None
        else
          match ParseFlags(ws1[1..], ws1[0])
          case None => None
          case Some((flags, ws2)) =>
            if |ws2| < 1 || ParseBool(ws2[0]).None? then None
            else Some((SubTableImage(ws[0], nodes, flags, ParseBool(ws2[0]).value), ws2[1..]))
  }

  lemma {:induction false} ParseEncodeNodes(nodes: seq<FlatNode>, rest: seq<int>)
    ensures ParseNodes(EncodeNodes(nodes) + rest, |nodes|) == Some((nodes, rest))
  {
    if nodes != [] {
      var ws := EncodeNodes(nodes) + rest;
      assert ws[4..] == EncodeNodes(nodes[1..]) + rest;
      assert ws[0] == nodes[0].begin && ws[1] == nodes[0].count && ws[3] == nodes[0].parent;
      assert ParseBool(ws[2]) == Some(nodes[0].leaf);
      ParseEncodeNodes(nodes[1..], rest);
      assert FlatNode(ws[0], ws[1], ParseBool(ws[2]).value, ws[3]) == nodes[0];
      assert ParseNodes(ws, |nodes|) == Some(([nodes[0]] + nodes[1..], rest));
      assert [nodes[0]] + nodes[1..] == nodes;
    } else {
      assert EncodeNodes(nodes) + rest == rest;
    }
  }

  lemma {:induction false} ParseEncodeFlags(flags: seq<PointSerializeFlag>, rest: seq<int>)
    ensures ParseFlags(EncodeFlags(flags) + rest, |flags|) == Some((flags, rest))
  {
    if flags != [] {
      var ws := EncodeFlags(flags) + rest;
      assert ws[2..] == EncodeFlags(flags[1..]) + rest;
      assert ws[0] == flags[0].begin && ws[1] == flags[0].count;
      ParseEncodeFlags(flags[1..], rest);
      assert ParseFlags(ws, |flags|) == Some(([flags[0]] + flags[1..], rest));
      assert [flags[0]] + flags[1..] == flags;
    } else {
      assert EncodeFlags(flags) + rest == rest;
    }
  }

  /** Round trip of the image: what `save` writes, `load` reads back exactly,
    * leaving whatever follows in the stream untouched. */
  lemma {:induction false} ParseEncodeImage(img: SubTableImage, rest: seq<int>)
    requires ValidParents(img.nodes)
    ensures ParseImage(EncodeImage(img) + rest) == Some((img, rest))
  {
    var ws := EncodeImage(img) + rest;
    var ws1 := [|img.flags|] + EncodeFlags(img.flags) + [EncodeBool(img.serializeNewFromOldMapping)] + rest;
    var ws2 := [EncodeBool(img.serializeNewFromOldMapping)] + rest;
    assert ws == [img.rank, |img.nodes|] + (EncodeNodes(img.nodes) + ws1);
    ParseEncodeNodes(img.nodes, ws1);
    assert ws1 == [|img.flags|] + (EncodeFlags(img.flags) + ws2);
    ParseEncodeFlags(img.flags, ws2);
    assert ws2[1..] == rest;
  }

  /** The point ranges a handle holds after `save`: saving an alias appends
    * the start node's own range (through `FillTreeNodes_`) before the list
    * is written; saving an owner leaves the list alone. */
  function SavedFlags(s: SubTableState): (f: seq<PointSerializeFlag>)
    requires s.startNode.Node?
    ensures |f| == |s.flags| + (if s.isAlias then 1 else 0)
    ensures f[..|s.flags|] == s.flags
    ensures s.isAlias ==> f[|s.flags|] == PointSerializeFlag(s.startNode.begin, s.startNode.count)
  {
    s.flags + (if s.isAlias then [PointSerializeFlag(s.startNode.begin, s.startNode.count)] else [])
  }

  /** The image `save` writes for a handle. */
  function SavedImage(s: SubTableState): SubTableImage
    requires s.startNode.Node?
  {
    SubTableImage(s.rank, Flatten(s.startNode, -1, 0), SavedFlags(s), s.serializeNewFromOldMapping)
  }

  /** The handle `load` produces in a slot prepared by `Init(cacheBlockId,
    * false)`: an owner, unlocked, holding the image's fields and the tree
    * rebuilt from its node list. */
  function LoadedState(cacheBlockId: int, img: SubTableImage): (s: SubTableState)
    requires ValidParents(img.nodes)
    ensures !s.isAlias && !s.IsLocked() && s.cacheBlockId == cacheBlockId
    ensures s.startNode.Node? && s.Id() == SubTableIdType(img.rank, img.nodes[0].begin, img.nodes[0].count)
  {
    var root := Rebuild(img.nodes);
    assert root == Decode(img.nodes, Links(img.nodes, |img.nodes|).0, Links(img.nodes, |img.nodes|).1, 0);
    SubTableState(img.serializeNewFromOldMapping, cacheBlockId, -1, img.rank,
                  root, FreshTableRank, false, img.flags)
  }

  /** Round trip of a handle through the wire: the loaded handle has the same
    * identity, the same tree (when the tree is well formed), the point
    * ranges as saved and the same new-from-old flag; it owns its table. */
  lemma {:induction false} SaveLoadState(s: SubTableState, cacheBlockId: int, rest: seq<int>)
    requires s.startNode.Node? && WellFormed(s.startNode)
    ensures ValidParents(SavedImage(s).nodes)
    ensures ParseImage(EncodeImage(SavedImage(s)) + rest) == Some((SavedImage(s), rest))
    ensures LoadedState(cacheBlockId, SavedImage(s)).Id() == s.Id()
    ensures LoadedState(cacheBlockId, SavedImage(s)).startNode == s.startNode
    ensures LoadedState(cacheBlockId, SavedImage(s)).flags == SavedFlags(s)
    ensures LoadedState(cacheBlockId, SavedImage(s)).serializeNewFromOldMapping == s.serializeNewFromOldMapping
  {
    RebuildFlatten(s.startNode);
    ParseEncodeImage(SavedImage(s), rest);
  }

  // ---------------------------------------------------------------------
  // The handle itself.
  // ---------------------------------------------------------------------

  class SubTable {
    var serializeNewFromOldMapping: bool
    var cacheBlockId: int
    /** The rank holding the write lock; -1 when unlocked. */
    var lockedMpiRank: int
    var table: Table?
    /** The start node; `Nil` is a null pointer. */
    var startNode: Tree
    var originatingRank: int
    /** True when this handle must not free the table. */
    var isAlias: bool
    /** `serialize_points_per_terminal_node_`: the point ranges for which the
      * handle carries data. */
    var flags: seq<PointSerializeFlag>

    /** The default constructor: unlocked, no table, an alias. */
    constructor ()
      ensures serializeNewFromOldMapping && cacheBlockId == 0
      ensures lockedMpiRank == -1 && !IsLocked() && originatingRank == -1
      ensures table == null && startNode == Nil && isAlias && flags == []
    {
      serializeNewFromOldMapping := true;
      cacheBlockId := 0;
      lockedMpiRank := -1;
      originatingRank := -1;
      table := null;
      startNode := Nil;
      isAlias := true;
      flags := [];
    }

    /** The handle's value, as copied into cache slots and queue entries. */
    function State(): (s: SubTableState)
      reads this, table
      requires table != null
      ensures s.rank == table.rank && s.startNode == startNode && s.isAlias == isAlias
      ensures s.flags == flags && s.lockedMpiRank == lockedMpiRank
    {
      SubTableState(serializeNewFromOldMapping, cacheBlockId, lockedMpiRank, table.rank,
                    startNode, originatingRank, isAlias, flags)
    }

    /** `subtable_id()`: (table rank, start begin, start count). */
    function SubTableId(): (id: SubTableIdType)
      reads this, table
      requires table != null && startNode.Node?
      ensures id == State().Id()
    {
      SubTableIdType(table.rank, startNode.begin, startNode.count)
    }

    /** `has_same_subtable_id`: compares begin and count only, not the rank. */
    function HasSameSubTableId(beginCount: (int, int)): (same: bool)
      reads this, table
      requires table != null && startNode.Node?
      ensures same <==> SubTableId().begin == beginCount.0 && SubTableId().count == beginCount.1
    {
      startNode.begin == beginCount.0 && startNode.count == beginCount.1
    }

    /** `is_locked()`. */
    predicate IsLocked()
      reads this
    {
      lockedMpiRank >= 0
    }

    method Lock(mpiRank: int)
      modifies this`lockedMpiRank
      ensures lockedMpiRank == mpiRank
      ensures IsLocked() <==> mpiRank >= 0
    {
      lockedMpiRank := mpiRank;
    }

    method Unlock()
      modifies this`lockedMpiRank
      ensures lockedMpiRank == -1 && !IsLocked()
    {
      lockedMpiRank := -1;
    }

    /** `set_start_node`: the point ranges become the new start node's own. */
    method SetStartNode(node: Tree)
      requires node.Node?
      modifies this`startNode, this`flags
      ensures startNode == node && flags == [PointSerializeFlag(node.begin, node.count)]
    {
      startNode := node;
      flags := [];
      flags := flags + [PointSerializeFlag(node.begin, node.count)];
    }

    /** `Destruct`: frees the table only when this handle owns a non-null
      * one; afterwards the handle is an alias of nothing, so a second call
      * frees nothing. */
    method Destruct() returns (freed: bool)
      modifies this`isAlias, this`table
      ensures freed <==> !old(isAlias) && old(table) != null
      ensures isAlias && table == null
    {
      freed := !isAlias && table != null;
      isAlias := true;
      table := null;
    }

    /** `Alias`: copies every field of `src` but never takes ownership. */
    method Alias(src: SubTable)
      modifies this
      ensures serializeNewFromOldMapping == old(src.serializeNewFromOldMapping)
      ensures cacheBlockId == old(src.cacheBlockId) && lockedMpiRank == old(src.lockedMpiRank)
      ensures originatingRank == old(src.originatingRank) && table == old(src.table)
      ensures startNode == old(src.startNode) && flags == old(src.flags)
      ensures isAlias
      ensures table != null ==> State() == AliasOf(old(src.State()))
    {
      serializeNewFromOldMapping := src.serializeNewFromOldMapping;
      cacheBlockId := src.cacheBlockId;
      lockedMpiRank := src.lockedMpiRank;
      originatingRank := src.originatingRank;
      table := src.table;
      startNode := src.startNode;
      isAlias := true;
      flags := src.flags;
    }

    /** `operator=`: copies every field of `src`, takes over its ownership
      * flag and marks `src` as an alias, so at most one of the two owns the
      * table afterwards. */
    method Assign(src: SubTable)
      modifies this, src`isAlias
      ensures serializeNewFromOldMapping == old(src.serializeNewFromOldMapping)
      ensures cacheBlockId == old(src.cacheBlockId) && lockedMpiRank == old(src.lockedMpiRank)
      ensures originatingRank == old(src.originatingRank) && table == old(src.table)
      ensures startNode == old(src.startNode) && flags == old(src.flags)
      ensures src != this ==> isAlias == old(src.isAlias)
      ensures src.isAlias
      ensures isAlias || src.isAlias
    {
      serializeNewFromOldMapping := src.serializeNewFromOldMapping;
      cacheBlockId := src.cacheBlockId;
      lockedMpiRank := src.lockedMpiRank;
      originatingRank := src.originatingRank;
      table := src.table;
      startNode := src.startNode;
      isAlias := src.isAlias;
      src.isAlias := true;
      flags := src.flags;
    }

    /** `Init(table, start_node, flag)`: a handle aliasing an existing table,
      * originating from that table's rank. */
    method InitFromTable(t: Table, start: Tree, serializeNewFromOld: bool)
      modifies this`serializeNewFromOldMapping, this`table, this`isAlias,
               this`originatingRank, this`startNode
      ensures table == t && isAlias && originatingRank == t.rank
      ensures startNode == start && serializeNewFromOldMapping == serializeNewFromOld
    {
      serializeNewFromOldMapping := serializeNewFromOld;
      table := t;
      isAlias := true;
      originatingRank := t.rank;
      startNode := start;
    }

    /** `Init(cache_block_id, flag)`: a handle that owns a freshly allocated
      * table, prepared for `load`. */
    method InitOwned(cacheBlockIdIn: int, serializeNewFromOld: bool)
      modifies this
      ensures table != null && fresh(table) && !isAlias
      ensures cacheBlockId == cacheBlockIdIn && originatingRank == table.rank == FreshTableRank
      ensures startNode == Nil && serializeNewFromOldMapping == serializeNewFromOld
      ensures lockedMpiRank == old(lockedMpiRank) && flags == old(flags)
    {
      cacheBlockId := cacheBlockIdIn;
      var t := new Table();
      InitFromTable(t, Nil, serializeNewFromOld);
      isAlias := false;
    }

    /** `save`: flattens the subtree (appending the start node's range to the
      * point ranges of an alias, as `FillTreeNodes_` does through a cast-away
      * const) and writes the image. */
    method Save() returns (ws: seq<int>)
      requires table != null && startNode.Node?
      modifies this`flags
      ensures flags == SavedFlags(old(State()))
      ensures ws == EncodeImage(SavedImage(old(State())))
    {
      var nodes, newFlags := FillTreeNodes(startNode, -1, [], flags, isAlias);
      assert nodes == Flatten(startNode, -1, 0);
      flags := newFlags;
      ws := [table.rank, |nodes|] + EncodeNodes(nodes) +
            [|flags|] + EncodeFlags(flags) + [EncodeBool(serializeNewFromOldMapping)];
    }

    /** `load`: reads an image, sets the table's rank, rebuilds the tree with
      * the pointer-correction loop and makes entry 0 the table's tree and the
      * start node, then takes over the point ranges and the new-from-old
      * flag. On an input the C++ would misread, nothing changes. */
    method Load(ws: seq<int>) returns (rest: Option<seq<int>>)
      requires table != null
      modifies this`startNode, this`flags, this`serializeNewFromOldMapping, table
      ensures rest.None? <==> ParseImage(ws).None?
      ensures rest.None? ==> unchanged(this) && unchanged(table)
      ensures rest.Some? ==>
        var img := ParseImage(ws).value.0;
        rest.value == ParseImage(ws).value.1 &&
        table.rank == img.rank && startNode == Rebuild(img.nodes) && table.tree == startNode &&
        flags == img.flags && serializeNewFromOldMapping == img.serializeNewFromOldMapping &&
        !table.entirePointsAvailable && table.beginCountPairs == old(table.beginCountPairs) + img.flags
    {
      var parsed := ParseImage(ws);
      if parsed.None? {
        return None;
      }
      var img := parsed.value.0;
      table.rank := img.rank;
      var left, right := RelinkNodes(img.nodes);
      var root := Decode(img.nodes, left[..], right[..], 0);
      table.tree := root;
      startNode := root;
      table.entirePointsAvailable := false;
      flags := img.flags;
      table.beginCountPairs := table.beginCountPairs + img.flags;
      serializeNewFromOldMapping := img.serializeNewFromOldMapping;
      rest := Some(parsed.value.1);
    }
  }
}
