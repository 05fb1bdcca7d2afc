/** The donation bundle builder of the distributed dual-tree code
  * (core/parallel/distributed_dualtree_task_list.h): a budgeted cache of
  * subtables keyed by identity, stored as a dense vector plus an
  * identity-to-position map; a greedy first-fit, early-stop packing of one
  * query's reference tasks; the export of a received bundle into the
  * destination queue; and the bundle's flat integer image. */
module DistributedDualtreeTaskLists {
  import opened Wrappers
  import opened SubTableTree
  import opened SubTables
  import opened TaskQueues

  // ---------------------------------------------------------------------
  // Keys
  // ---------------------------------------------------------------------

  /** `ComparatorType`: lexicographic order on (rank, begin, count). */
  predicate Less(k1: SubTableIdType, k2: SubTableIdType)
  {
    k1.rank < k2.rank ||
    (k1.rank == k2.rank && k1.begin < k2.begin) ||
    (k1.rank == k2.rank && k1.begin == k2.begin && k1.count < k2.count)
  }

  /** The comparator is a strict total order, so the map it orders holds at
    * most one entry per identity. */
  lemma {:induction false} ComparatorIsStrictTotalOrder(a: SubTableIdType, b: SubTableIdType, c: SubTableIdType)
    ensures !Less(a, a)
    ensures Less(a, b) ==> !Less(b, a)
    ensures Less(a, b) && Less(b, c) ==> Less(a, c)
    ensures Less(a, b) || a == b || Less(b, a)
  {
  }

  // ---------------------------------------------------------------------
  // The cache as a value
  // ---------------------------------------------------------------------

  /** One entry of `sub_tables_`: the aliased subtable, whether it is held as
    * a query, and how many times it is held as a reference. */
  datatype Slot = Slot(table: SubTableState, isQuery: bool, refCount: int)

  /** One entry of `donated_task_list_`: the query's slot position and the
    * slot positions of its donated references. */
  datatype DonatedTask = DonatedTask(query: int, references: seq<int>)

  /** The cache fields of the task list: the slots, the identity-to-position
    * map and the number of points that may still be admitted. */
  datatype Cache = Cache(slots: seq<Slot>, index: map<SubTableIdType, int>, remaining: nat)

  function Key(s: Slot): SubTableIdType
    requires s.table.startNode.Node?
  {
    s.table.Id()
  }

  /** The points a slot holds against the budget: its start node's count. */
  function Points(s: Slot): nat
  {
    if s.table.startNode.Node? then s.table.startNode.count else 0
  }

  /** The points held by all slots. */
  function Held(slots: seq<Slot>): nat
  {
    if slots == [] then 0 else Held(slots[..|slots| - 1]) + Points(slots[|slots| - 1])
  }

  /** A slot is retained only while it is held as a query or as a
    * reference at least once. */
  predicate Live(s: Slot)
  {
    s.table.startNode.Node? && s.refCount >= 0 && (s.isQuery || s.refCount > 0)
  }

  /** The slot at position `i` (if any) is live and its identity maps back
    * to `i`. */
  ghost predicate SlotIndexed(c: Cache, i: int)
  {
    0 <= i < |c.slots| ==>
      Live(c.slots[i]) && Key(c.slots[i]) in c.index && c.index[Key(c.slots[i])] == i
  }

  /** The map entry for `k` (if any) names a live slot with identity `k`. */
  ghost predicate EntryIndexed(c: Cache, k: SubTableIdType)
  {
    k in c.index ==>
      0 <= c.index[k] < |c.slots| && Live(c.slots[c.index[k]]) && Key(c.slots[c.index[k]]) == k
  }

  /** The map and the vector agree: every slot's identity maps to its own
    * position, every map entry names a slot with that identity, and there
    * are exactly as many entries as slots. */
  ghost predicate Consistent(c: Cache)
  {
    (forall i :: SlotIndexed(c, i)) && (forall k :: EntryIndexed(c, k)) && |c.index| == |c.slots|
  }

  lemma {:induction false} SlotOf(c: Cache, i: int)
    requires Consistent(c) && 0 <= i < |c.slots|
    ensures Live(c.slots[i]) && Key(c.slots[i]) in c.index && c.index[Key(c.slots[i])] == i
  {
    assert SlotIndexed(c, i);
  }

  lemma {:induction false} EntryOf(c: Cache, k: SubTableIdType)
    requires Consistent(c) && k in c.index
    ensures 0 <= c.index[k] < |c.slots| && Live(c.slots[c.index[k]]) && Key(c.slots[c.index[k]]) == k
  {
    assert EntryIndexed(c, k);
  }

  /** The slot position of a held identity. */
  function Position(c: Cache, k: SubTableIdType): (p: int)
    requires Consistent(c) && k in c.index
    ensures 0 <= p < |c.slots| && p == c.index[k] && Live(c.slots[p]) && Key(c.slots[p]) == k
  {
    EntryOf(c, k);
    c.index[k]
  }

  lemma {:induction false} WithRemaining(c: Cache, remaining: nat)
    requires Consistent(c)
    ensures Consistent(c.(remaining := remaining))
  {
    var r := c.(remaining := remaining);
    forall i ensures SlotIndexed(r, i) { assert SlotIndexed(c, i); }
    forall k ensures EntryIndexed(r, k) { assert EntryIndexed(c, k); }
  }

  /** Budget conservation: the remaining budget plus the points of every held
    * slot is the budget the list was initialised with. */
  ghost predicate Conserves(c: Cache, budget: nat)
  {
    c.remaining + Held(c.slots) == budget
  }

  /** `m2` keeps the entry of `m1` for `k`, if there is one. */
  ghost predicate Kept(m1: map<SubTableIdType, int>, m2: map<SubTableIdType, int>, k: SubTableIdType)
  {
    k in m1 ==> k in m2 && m2[k] == m1[k]
  }

  /** `m2` keeps every entry of `m1`. */
  ghost predicate Extends(m1: map<SubTableIdType, int>, m2: map<SubTableIdType, int>)
  {
    forall k :: Kept(m1, m2, k)
  }

  lemma {:induction false} ExtendsTrans(m1: map<SubTableIdType, int>, m2: map<SubTableIdType, int>,
                                        m3: map<SubTableIdType, int>)
    requires Extends(m1, m2) && Extends(m2, m3)
    ensures Extends(m1, m3)
  {
    forall k ensures Kept(m1, m3, k) {
      assert Kept(m1, m2, k) && Kept(m2, m3, k);
    }
  }

  lemma {:induction false} HeldUpdate(slots: seq<Slot>, p: nat, s: Slot)
    requires p < |slots|
    ensures Held(slots[p := s]) == Held(slots) - Points(slots[p]) + Points(s)
    decreases |slots|
  {
    var n := |slots|;
    if p < n - 1 {
      assert slots[p := s][..n - 1] == slots[..n - 1][p := s];
      HeldUpdate(slots[..n - 1], p, s);
    } else {
      assert slots[p := s][..n - 1] == slots[..n - 1];
    }
  }

  /** Replacing a slot by one of the same identity keeps the cache
    * consistent. */
  lemma {:induction false} UpdateConsistent(c: Cache, p: nat, slot: Slot)
    requires Consistent(c) && p < |c.slots| && Live(slot) && Live(c.slots[p]) && Key(slot) == Key(c.slots[p])
    ensures Consistent(c.(slots := c.slots[p := slot]))
  {
    var r := c.(slots := c.slots[p := slot]);
    forall i
      ensures SlotIndexed(r, i)
    {
      assert SlotIndexed(c, i);
    }
    forall k
      ensures EntryIndexed(r, k)
    {
      assert EntryIndexed(c, k);
    }
  }

  /** Appending a slot of a new identity and mapping it to the new position
    * keeps the cache consistent. */
  lemma {:induction false} AppendConsistent(c: Cache, slot: Slot, remaining: nat)
    requires Consistent(c) && Live(slot) && Key(slot) !in c.index
    ensures Consistent(Cache(c.slots + [slot], c.index[Key(slot) := |c.slots|], remaining))
  {
    var r := Cache(c.slots + [slot], c.index[Key(slot) := |c.slots|], remaining);
    forall i
      ensures SlotIndexed(r, i)
    {
      if 0 <= i < |c.slots| {
        SlotOf(c, i);
        assert r.slots[i] == c.slots[i];
      }
    }
    forall k
      ensures EntryIndexed(r, k)
    {
      if k != Key(slot) {
        assert EntryIndexed(c, k);
        if k in c.index {
          assert r.slots[c.index[k]] == c.slots[c.index[k]];
        }
      }
    }
  }

  /** Replaces the slot at `p` by one of the same identity. */
  function Replace(c: Cache, p: nat, slot: Slot): (r: Cache)
    requires Consistent(c) && p < |c.slots| && Live(slot) && Live(c.slots[p]) && Key(slot) == Key(c.slots[p])
    ensures Consistent(r) && r.index == c.index && r.remaining == c.remaining
    ensures r.remaining + Held(r.slots) == c.remaining + Held(c.slots) - Points(c.slots[p]) + Points(slot)
    ensures |r.slots| == |c.slots| && r.slots[p] == slot
    ensures forall i :: 0 <= i < |c.slots| && i != p ==> r.slots[i] == c.slots[i]
  {
    HeldUpdate(c.slots, p, slot);
    UpdateConsistent(c, p, slot);
    c.(slots := c.slots[p := slot])
  }

  /** Appends a slot of a new identity, maps it to the new position and
    * charges its points. */
  function Append(c: Cache, slot: Slot): (r: Cache)
    requires Consistent(c) && Live(slot) && Key(slot) !in c.index && Points(slot) <= c.remaining
    ensures Consistent(r) && r.remaining == c.remaining - Points(slot)
    ensures r.remaining + Held(r.slots) == c.remaining + Held(c.slots)
    ensures r.slots == c.slots + [slot] && r.index == c.index[Key(slot) := |c.slots|]
  {
    var slots := c.slots + [slot];
    assert slots[..|slots| - 1] == c.slots;
    AppendConsistent(c, slot, c.remaining - Points(slot));
    Cache(slots, c.index[Key(slot) := |c.slots|], c.remaining - Points(slot))
  }

  /** `push_back_`: admits a subtable as a query or as a reference and
    * returns its slot position, or -1 when a new identity does not fit. It
    * keeps the cache consistent, never charges the budget twice for one
    * identity, only ever adds map entries and never moves a slot. */
  function Admit(c: Cache, s: SubTableState, asQuery: bool): (r: (Cache, int))
    requires Consistent(c) && s.startNode.Node?
    ensures Consistent(r.0)
    ensures r.0.remaining + Held(r.0.slots) == c.remaining + Held(c.slots)
    ensures r.1 == -1 || (0 <= r.1 < |r.0.slots| && s.Id() in r.0.index && r.0.index[s.Id()] == r.1)
    ensures r.1 == -1 <==> s.Id() !in c.index && s.startNode.count > c.remaining
    ensures |r.0.slots| >= |c.slots| && Extends(c.index, r.0.index)
  {
    var k := s.Id();
    if k in c.index then
      EntryOf(c, k);
      var p := c.index[k];
      var prev := c.slots[p];
      var slot := if asQuery then Slot(AliasOf(s), true, prev.refCount)
                  else prev.(refCount := prev.refCount + 1);
      (Replace(c, p, slot), p)
    else if s.startNode.count <= c.remaining then
      (Append(c, Slot(AliasOf(s), asQuery, if asQuery then 0 else 1)), |c.slots|)
    else
      (c, -1)
  }

  /** `pop_`, with eviction by swap-and-pop: releases one query or reference
    * claim and, when none is left, refunds the slot's points, erases its
    * identity, moves the last slot into the hole and remaps the moved
    * identity. Only a last slot that is itself evicted is not remapped (the
    * source remaps it; see `ReleaseAsWritten`). */
  function Release(c: Cache, k: SubTableIdType, asQuery: bool): (r: Cache)
    requires Consistent(c) && k in c.index
    requires asQuery || c.slots[Position(c, k)].refCount > 0
    ensures Consistent(r)
    ensures r.remaining + Held(r.slots) == c.remaining + Held(c.slots)
  {
    EntryOf(c, k);
    var p := c.index[k];
    var prev := c.slots[p];
    var slot := if asQuery then prev.(isQuery := false) else prev.(refCount := prev.refCount - 1);
    if slot.isQuery || slot.refCount != 0 then
      Replace(c, p, slot)
    else
      Evict(c, p)
  }

  /** The eviction step of `Release` for the slot at `p`: swap-and-pop,
    * erase the evicted identity, remap the moved one and refund. */
  function Evict(c: Cache, p: nat): (r: Cache)
    requires Consistent(c) && p < |c.slots|
    ensures SlotIndexed(c, p) && SlotIndexed(c, |c.slots| - 1)
    ensures Consistent(r)
    ensures r.remaining + Held(r.slots) == c.remaining + Held(c.slots)
    ensures r.remaining == c.remaining + Points(c.slots[p])
    ensures r.slots == c.slots[p := c.slots[|c.slots| - 1]][..|c.slots| - 1]
    ensures r.index ==
      if p < |c.slots| - 1 then (c.index - {Key(c.slots[p])})[Key(c.slots[|c.slots| - 1]) := p]
      else c.index - {Key(c.slots[p])}
  {
    SlotOf(c, p);
    SlotOf(c, |c.slots| - 1);
    var n := |c.slots|;
    var last := n - 1;
    var moved := c.slots[last];
    var slots := c.slots[p := moved][..last];
    var index := c.index - {Key(c.slots[p])};
    var index2 := if p < last then index[Key(moved) := p] else index;
    var r := Cache(slots, index2, c.remaining + Points(c.slots[p]));
    EvictConsistent(c, p, r);
    HeldUpdate(c.slots, p, moved);
    assert c.slots[p := moved] == slots + [moved];
    assert (slots + [moved])[..last] == slots;
    r
  }

  lemma {:induction false} EvictConsistent(c: Cache, p: nat, r: Cache)
    requires Consistent(c) && p < |c.slots| && SlotIndexed(c, p) && SlotIndexed(c, |c.slots| - 1)
    requires r.slots == c.slots[p := c.slots[|c.slots| - 1]][..|c.slots| - 1]
    requires r.index ==
      if p < |c.slots| - 1 then (c.index - {Key(c.slots[p])})[Key(c.slots[|c.slots| - 1]) := p]
      else c.index - {Key(c.slots[p])}
    ensures Consistent(r)
  {
    var n := |c.slots|;
    var kp := Key(c.slots[p]);
    var kl := Key(c.slots[n - 1]);
    assert |c.index - {kp}| == n - 1;
    forall i
      ensures SlotIndexed(r, i)
    {
      if 0 <= i < |r.slots| && i != p {
        SlotOf(c, i);
        assert r.slots[i] == c.slots[i];
      }
    }
    forall k
      ensures EntryIndexed(r, k)
    {
      if k in r.index && !(p < n - 1 && k == kl) {
        EntryOf(c, k);
        assert c.index[k] != p;
        assert c.index[k] != n - 1;
        assert r.slots[c.index[k]] == c.slots[c.index[k]];
      }
    }
  }

  /** `pop_` exactly as written: after the swap-and-pop it always maps the
    * former last slot's identity to the hole while any slot remains, even
    * when the evicted slot was that last slot. */
  function ReleaseAsWritten(c: Cache, k: SubTableIdType, asQuery: bool): (r: Cache)
    requires Consistent(c) && k in c.index
    requires asQuery || c.slots[Position(c, k)].refCount > 0
    ensures |r.slots| <= |c.slots|
  {
    EntryOf(c, k);
    var p := c.index[k];
    var prev := c.slots[p];
    var slot := if asQuery then prev.(isQuery := false) else prev.(refCount := prev.refCount - 1);
    if slot.isQuery || slot.refCount != 0 then
      c.(slots := c.slots[p := slot])
    else
      var n := |c.slots|;
      SlotOf(c, n - 1);
      var lastKey := Key(c.slots[n - 1]);
      var index := c.index - {Key(c.slots[p])};
      var slots := c.slots[p := c.slots[n - 1]][..n - 1];
      Cache(slots, if |slots| > 0 then index[lastKey := p] else index - {lastKey},
            c.remaining + Points(prev))
  }

  /** Two held slots: A as a reference once, Q as a query. */
  function TwoSlots(a: SubTableState, q: SubTableState): (c: Cache)
    requires a.startNode.Node? && q.startNode.Node?
    ensures |c.slots| == 2 && c.remaining == 0
  {
    Cache([Slot(a, false, 1), Slot(q, true, 0)], map[a.Id() := 0, q.Id() := 1], 0)
  }

  lemma {:induction false} TwoSlotsConsistent(a: SubTableState, q: SubTableState)
    requires a.startNode.Node? && q.startNode.Node? && a.Id() != q.Id()
    ensures Consistent(TwoSlots(a, q))
  {
    var c := TwoSlots(a, q);
    assert c.index.Keys == {a.Id(), q.Id()};
    forall i ensures SlotIndexed(c, i) {}
    forall k ensures EntryIndexed(c, k) {}
  }

  /** The source's `pop_` breaks the cache when it evicts the last slot while
    * other slots remain: here a reference slot A and a query slot Q are held
    * and Q is withdrawn. Q's identity is re-entered in the map at position 1
    * although only one slot is left, so a later admission of Q would find a
    * slot that does not exist. */
  lemma {:induction false} ReleaseAsWrittenLeavesStaleEntry(a: SubTableState, q: SubTableState)
    requires a.startNode.Node? && q.startNode.Node? && a.Id() != q.Id()
    ensures Consistent(TwoSlots(a, q))
    ensures var r := ReleaseAsWritten(TwoSlots(a, q), q.Id(), true);
      |r.slots| == 1 && q.Id() in r.index && r.index[q.Id()] == |r.slots| && !Consistent(r)
  {
    TwoSlotsConsistent(a, q);
    var r := ReleaseAsWritten(TwoSlots(a, q), q.Id(), true);
    assert r.slots == [Slot(a, false, 1)];
    assert r.index == map[a.Id() := 0, q.Id() := 1];
    assert !EntryIndexed(r, q.Id());
  }

  /** The corrected `pop_` evicts the same slot correctly: Q's identity is
    * gone, A keeps position 0 and Q's points are refunded. */
  lemma {:induction false} ReleaseWithdrawsLastSlot(a: SubTableState, q: SubTableState)
    requires a.startNode.Node? && q.startNode.Node? && a.Id() != q.Id()
    ensures Consistent(TwoSlots(a, q))
    ensures Release(TwoSlots(a, q), q.Id(), true) == Cache([Slot(a, false, 1)], map[a.Id() := 0], q.startNode.count)
  {
    TwoSlotsConsistent(a, q);
    var c := TwoSlots(a, q);
    var r := Release(c, q.Id(), true);
    assert r == Evict(c, 1);
    assert r.slots == [Slot(a, false, 1)];
    assert r.index == map[a.Id() := 0] by {
      assert r.index.Keys == {a.Id()};
    }
  }

  // ---------------------------------------------------------------------
  // Properties of admission and release
  // ---------------------------------------------------------------------

  /** Admitting an identity that is already held returns its position and
    * leaves the budget, the map and every other slot alone; a reference
    * admission counts one more reference, a query admission marks the slot
    * as a query and aliases the incoming handle. */
  lemma {:induction false} AdmitExisting(c: Cache, s: SubTableState, asQuery: bool)
    requires Consistent(c) && s.startNode.Node? && s.Id() in c.index
    ensures 0 <= c.index[s.Id()] < |c.slots|
    ensures var r := Admit(c, s, asQuery); var p := c.index[s.Id()];
      r.1 == p && r.0.remaining == c.remaining && r.0.index == c.index &&
      |r.0.slots| == |c.slots| &&
      (forall i :: 0 <= i < |c.slots| && i != p ==> r.0.slots[i] == c.slots[i]) &&
      (asQuery ==> r.0.slots[p] == Slot(AliasOf(s), true, c.slots[p].refCount)) &&
      (!asQuery ==> r.0.slots[p] == c.slots[p].(refCount := c.slots[p].refCount + 1))
  {
    EntryOf(c, s.Id());
  }

  /** Admitting a new identity that fits appends a slot set to (query, 0) or
    * (reference, 1), maps the identity to it and charges its points. */
  lemma {:induction false} AdmitNew(c: Cache, s: SubTableState, asQuery: bool)
    requires Consistent(c) && s.startNode.Node? && s.Id() !in c.index
    requires s.startNode.count <= c.remaining
    ensures var r := Admit(c, s, asQuery);
      r.1 == |c.slots| &&
      r.0.slots == c.slots + [Slot(AliasOf(s), asQuery, if asQuery then 0 else 1)] &&
      r.0.index == c.index[s.Id() := |c.slots|] &&
      r.0.remaining == c.remaining - s.startNode.count
  {
  }

  /** A new identity that does not fit is rejected without any change. */
  lemma {:induction false} AdmitRejects(c: Cache, s: SubTableState, asQuery: bool)
    requires Consistent(c) && s.startNode.Node? && s.Id() !in c.index
    requires s.startNode.count > c.remaining
    ensures Admit(c, s, asQuery) == (c, -1)
  {
  }

  /** Releasing a claim that is not the last one changes only that slot's
    * flag or count. */
  lemma {:induction false} ReleaseKeeps(c: Cache, k: SubTableIdType, asQuery: bool)
    requires Consistent(c) && k in c.index
    requires asQuery || c.slots[Position(c, k)].refCount > 0
    requires var s := c.slots[Position(c, k)];
      if asQuery then s.refCount > 0 else s.isQuery || s.refCount > 1
    ensures var r := Release(c, k, asQuery); var p := c.index[k];
      r.index == c.index && r.remaining == c.remaining && |r.slots| == |c.slots| &&
      (forall i :: 0 <= i < |c.slots| && i != p ==> r.slots[i] == c.slots[i]) &&
      r.slots[p] == (if asQuery then c.slots[p].(isQuery := false)
                     else c.slots[p].(refCount := c.slots[p].refCount - 1))
  {
  }

  /** Releasing the last claim evicts the slot: its points are refunded and
    * its identity erased; the former last slot fills the hole and is
    * remapped to it; every other identity keeps its position. */
  lemma {:induction false} ReleaseEvicts(c: Cache, k: SubTableIdType, asQuery: bool)
    requires Consistent(c) && k in c.index
    requires asQuery || c.slots[Position(c, k)].refCount > 0
    requires var s := c.slots[Position(c, k)];
      if asQuery then s.refCount == 0 else !s.isQuery && s.refCount == 1
    ensures SlotIndexed(c, |c.slots| - 1)
    ensures var r := Release(c, k, asQuery); var p := c.index[k]; var n := |c.slots|;
      k !in r.index && r.remaining == c.remaining + Points(c.slots[p]) &&
      |r.slots| == n - 1 &&
      (p < n - 1 ==> r.slots[p] == c.slots[n - 1] && r.index[Key(c.slots[n - 1])] == p) &&
      (forall i :: 0 <= i < n - 1 && i != p ==> r.slots[i] == c.slots[i]) &&
      (forall k2 :: k2 in r.index && k2 != Key(c.slots[n - 1]) ==> r.index[k2] == c.index[k2])
  {
    assert Release(c, k, asQuery) == Evict(c, c.index[k]);
  }

  /** Withdrawing a query that was admitted as a new identity restores the
    * cache exactly as it was before the admission. */
  lemma {:induction false} WithdrawNewQuery(c: Cache, s: SubTableState)
    requires Consistent(c) && s.startNode.Node? && s.Id() !in c.index
    requires Admit(c, s, true).1 >= 0
    ensures Release(Admit(c, s, true).0, s.Id(), true) == c
  {
    var a := Admit(c, s, true);
    var n := |c.slots|;
    var slot := Slot(AliasOf(s), true, 0);
    assert a.0 == Append(c, slot);
    var r := Release(a.0, s.Id(), true);
    assert r == Evict(a.0, n);
    assert r.slots == c.slots;
    assert r.index == c.index by {
      assert a.0.index == c.index[s.Id() := n];
      assert r.index == a.0.index - {s.Id()};
    }
  }

  /** The identity is held as a query slot: its query has already been
    * donated in this bundle. */
  ghost predicate DonatedQuery(c: Cache, k: SubTableIdType)
  {
    k in c.index && 0 <= c.index[k] < |c.slots| && c.slots[c.index[k]].isQuery
  }

  /** Withdrawing a query that was not already donated (the withdrawal in
    * `push_back`) moves no slot: the vector keeps its length and the map
    * is unchanged, so positions recorded in earlier donated lists still
    * name the same slots. */
  lemma {:induction false} WithdrawKeepsPositions(c: Cache, s: SubTableState)
    requires Consistent(c) && s.startNode.Node? && !DonatedQuery(c, s.Id())
    requires Admit(c, s, true).1 >= 0
    ensures Consistent(Admit(c, s, true).0) && s.Id() in Admit(c, s, true).0.index
    ensures var r := Release(Admit(c, s, true).0, s.Id(), true);
      |r.slots| == |c.slots| && r.index == c.index
  {
    if s.Id() !in c.index {
      WithdrawNewQuery(c, s);
    } else {
      var a := Admit(c, s, true);
      var p := Position(c, s.Id());
      AdmitExisting(c, s, true);
      assert c.slots[p].refCount > 0;
      assert Position(a.0, s.Id()) == p;
      ReleaseKeeps(a.0, s.Id(), true);
    }
  }

  /** Withdrawing a query that was already donated with no reference use
    * evicts its slot: the vector shrinks, so a position recorded in an
    * earlier donated list can name a moved slot or none. */
  lemma {:induction false} WithdrawDonatedQueryEvicts(c: Cache, s: SubTableState)
    requires Consistent(c) && s.startNode.Node? && DonatedQuery(c, s.Id())
    requires c.slots[c.index[s.Id()]].refCount == 0
    ensures Consistent(Admit(c, s, true).0) && s.Id() in Admit(c, s, true).0.index
    ensures var r := Release(Admit(c, s, true).0, s.Id(), true);
      |r.slots| == |c.slots| - 1 && s.Id() !in r.index
  {
    var a := Admit(c, s, true);
    var p := Position(c, s.Id());
    AdmitExisting(c, s, true);
    assert Position(a.0, s.Id()) == p;
    assert a.0.slots[p].refCount == 0 && a.0.slots[p].isQuery;
    ReleaseEvicts(a.0, s.Id(), true);
  }

  // ---------------------------------------------------------------------
  // Greedy packing of one query's reference tasks
  // ---------------------------------------------------------------------

  predicate ReferencesHaveStart(tasks: seq<Task>)
  {
    forall i :: 0 <= i < |tasks| ==> tasks[i].reference.startNode.Node?
  }

  /** The packing loop of `push_back`: admits the references in queue order
    * as references and stops at the first one that does not fit. Returns
    * the cache and the positions of the admitted references (one per
    * admitted task, so the number of tasks taken is the length). */
  function Pack(c: Cache, tasks: seq<Task>): (r: (Cache, seq<int>))
    requires Consistent(c) && ReferencesHaveStart(tasks)
    ensures Consistent(r.0)
    ensures r.0.remaining + Held(r.0.slots) == c.remaining + Held(c.slots)
    ensures |r.1| <= |tasks| && |r.0.slots| >= |c.slots|
    ensures forall j :: 0 <= j < |r.1| ==> 0 <= r.1[j] < |r.0.slots|
    ensures Extends(c.index, r.0.index)
    ensures |r.1| == 0 ==> r.0 == c
    decreases |tasks|
  {
    if tasks == [] then (c, [])
    else
      var a := Admit(c, tasks[0].reference, false);
      if a.1 < 0 then (c, [])
      else
        var rest := Pack(a.0, tasks[1..]);
        ExtendsTrans(c.index, a.0.index, rest.0.index);
        (rest.0, [a.1] + rest.1)
  }

  /** What each packed position means: the j-th is the slot the final
    * cache maps the j-th task's reference to, the position `push_back`
    * records for the task it pops at that step. */
  lemma {:induction false} PackNamesReferences(c: Cache, tasks: seq<Task>)
    requires Consistent(c) && ReferencesHaveStart(tasks)
    ensures var r := Pack(c, tasks);
      forall j :: 0 <= j < |r.1| ==>
        tasks[j].reference.Id() in r.0.index && r.0.index[tasks[j].reference.Id()] == r.1[j]
  {
    var r := Pack(c, tasks);
    forall j | 0 <= j < |r.1|
      ensures tasks[j].reference.Id() in r.0.index && r.0.index[tasks[j].reference.Id()] == r.1[j]
    {
      PackNamesAt(c, tasks, j);
    }
  }

  /** `PackNamesReferences` for one position, by induction on it. */
  lemma {:induction false} PackNamesAt(c: Cache, tasks: seq<Task>, j: nat)
    requires Consistent(c) && ReferencesHaveStart(tasks) && j < |Pack(c, tasks).1|
    ensures j < |tasks|
    ensures var r := Pack(c, tasks);
      tasks[j].reference.Id() in r.0.index && r.0.index[tasks[j].reference.Id()] == r.1[j]
    decreases j
  {
    PackStep(c, tasks);
    var a := Admit(c, tasks[0].reference, false);
    var rest := Pack(a.0, tasks[1..]);
    assert Pack(c, tasks) == (rest.0, [a.1] + rest.1);
    if j == 0 {
      assert Kept(a.0.index, rest.0.index, tasks[0].reference.Id());
    } else {
      PackNamesAt(a.0, tasks[1..], j - 1);
      assert tasks[j] == tasks[1..][j - 1];
      assert ([a.1] + rest.1)[j] == rest.1[j - 1];
    }
  }

  /** First fit with early stop: the first task Pack does not take (if any)
    * does not fit into the cache Pack ends with. */
  lemma {:induction false} PackStopsAtFirstMisfit(c: Cache, tasks: seq<Task>)
    requires Consistent(c) && ReferencesHaveStart(tasks)
    ensures var r := Pack(c, tasks);
      |r.1| < |tasks| ==> Admit(r.0, tasks[|r.1|].reference, false).1 == -1
    decreases |tasks|
  {
    if tasks != [] {
      PackStep(c, tasks);
      var a := Admit(c, tasks[0].reference, false);
      if a.1 >= 0 {
        PackStopsAtFirstMisfit(a.0, tasks[1..]);
        var r := Pack(a.0, tasks[1..]);
        assert Pack(c, tasks) == (r.0, [a.1] + r.1);
        if |r.1| < |tasks| - 1 {
          assert tasks[1..][|r.1|] == tasks[|r.1| + 1];
        }
      }
    }
  }

  /** `a` and `b` agree on their first `n` elements. */
  predicate SamePrefix(a: seq<Task>, b: seq<Task>, n: nat)
  {
    n <= |a| && n <= |b| && forall j :: 0 <= j < n ==> a[j] == b[j]
  }

  /** Tasks after the first misfit are never tried: replacing them changes
    * nothing, even where a later, smaller reference would have fit. */
  lemma {:induction false} PackIgnoresLaterTasks(c: Cache, tasks: seq<Task>, other: seq<Task>)
    requires Consistent(c) && ReferencesHaveStart(tasks) && ReferencesHaveStart(other)
    requires |Pack(c, tasks).1| < |tasks|
    requires SamePrefix(tasks, other, |Pack(c, tasks).1| + 1)
    ensures Pack(c, other) == Pack(c, tasks)
    decreases |tasks|
  {
    var k := |Pack(c, tasks).1|;
    var a := Admit(c, tasks[0].reference, false);
    if a.1 >= 0 {
      var rest := Pack(a.0, tasks[1..]);
      assert Pack(c, tasks) == (rest.0, [a.1] + rest.1);
      assert SamePrefix(tasks[1..], other[1..], k) by {
        forall j | 0 <= j < k
          ensures tasks[1..][j] == other[1..][j]
        {
          assert tasks[j + 1] == other[j + 1];
        }
      }
      PackIgnoresLaterTasks(a.0, tasks[1..], other[1..]);
    }
  }

  /** Every task Pack takes is admitted in order: taking one more task from
    * where the previous one left the cache. */
  lemma {:induction false} PackStep(c: Cache, tasks: seq<Task>)
    requires Consistent(c) && ReferencesHaveStart(tasks) && tasks != []
    ensures var a := Admit(c, tasks[0].reference, false);
      a.1 < 0 ==> Pack(c, tasks) == (c, [])
    ensures var a := Admit(c, tasks[0].reference, false);
      a.1 >= 0 ==> Pack(c, tasks) == (Pack(a.0, tasks[1..]).0, [a.1] + Pack(a.0, tasks[1..]).1)
  {
  }

  /** Loop state of the packing loop: `i` tasks taken so far, at the
    * positions `refs`, leaving the cache `c`; packing the rest from `c`
    * completes the packing of all of `tasks` from `c1`. */
  ghost predicate PackedSoFar(c1: Cache, tasks: seq<Task>, i: nat, c: Cache, refs: seq<int>)
  {
    Consistent(c1) && ReferencesHaveStart(tasks) && i <= |tasks| && Consistent(c) &&
    ReferencesHaveStart(tasks[i..]) &&
    Pack(c1, tasks).0 == Pack(c, tasks[i..]).0 &&
    Pack(c1, tasks).1 == refs + Pack(c, tasks[i..]).1
  }

  lemma {:induction false} PackStart(c1: Cache, tasks: seq<Task>)
    requires Consistent(c1) && ReferencesHaveStart(tasks)
    ensures PackedSoFar(c1, tasks, 0, c1, [])
  {
    assert tasks[0..] == tasks;
    var r := Pack(c1, tasks);
    assert [] + r.1 == r.1;
  }

  /** One more task: either it does not fit and packing is complete, or it
    * is taken at the position Admit returns. */
  lemma {:induction false} PackAdvance(c1: Cache, tasks: seq<Task>, i: nat, c: Cache, refs: seq<int>)
    requires PackedSoFar(c1, tasks, i, c, refs) && i < |tasks|
    ensures tasks[i].reference.startNode.Node?
    ensures var a := Admit(c, tasks[i].reference, false);
      (a.1 < 0 ==> Pack(c1, tasks) == (c, refs)) &&
      (a.1 >= 0 ==> PackedSoFar(c1, tasks, i + 1, a.0, refs + [a.1]))
  {
    var rest := tasks[i..];
    assert rest[0] == tasks[i];
    PackStep(c, rest);
    var a := Admit(c, tasks[i].reference, false);
    if a.1 < 0 {
      assert Pack(c, rest) == (c, []);
      assert refs + [] == refs;
    } else {
      assert rest[1..] == tasks[i + 1..];
      var r := Pack(a.0, tasks[i + 1..]);
      assert Pack(c, rest) == (r.0, [a.1] + r.1);
      assert refs + ([a.1] + r.1) == (refs + [a.1]) + r.1;
    }
  }

  lemma {:induction false} PackDone(c1: Cache, tasks: seq<Task>, c: Cache, refs: seq<int>)
    requires PackedSoFar(c1, tasks, |tasks|, c, refs)
    ensures Pack(c1, tasks) == (c, refs)
  {
    assert tasks[|tasks|..] == [];
    assert Pack(c, []) == (c, []);
    assert refs + [] == refs;
  }

  /** The first `n` steps of the packing loop, in the order the loop takes
    * them: the cache after them and the positions taken (fewer than `n`
    * when a reference did not fit on the way). */
  ghost function PackSteps(c: Cache, tasks: seq<Task>, n: nat): (r: (Cache, seq<int>))
    requires Consistent(c) && ReferencesHaveStart(tasks) && n <= |tasks|
    ensures Consistent(r.0) && |r.1| <= n
    decreases n
  {
    if n == 0 then (c, [])
    else
      var prev := PackSteps(c, tasks, n - 1);
      if |prev.1| < n - 1 then prev
      else
        var a := Admit(prev.0, tasks[n - 1].reference, false);
        if a.1 < 0 then prev else (a.0, prev.1 + [a.1])
  }

  /** One more loop step that takes its task extends the steps so far by
    * exactly the admission of that task's reference. */
  lemma {:induction false} PackStepsNext(c1: Cache, tasks: seq<Task>, i: nat, c: Cache, refs: seq<int>)
    requires Consistent(c1) && ReferencesHaveStart(tasks) && i < |tasks|
    requires PackSteps(c1, tasks, i) == (c, refs) && |refs| == i
    ensures Consistent(c) && tasks[i].reference.startNode.Node?
    ensures var a := Admit(c, tasks[i].reference, false);
      a.1 >= 0 ==> PackSteps(c1, tasks, i + 1) == (a.0, refs + [a.1])
  {
  }

  /** `n` loop steps that all took their task leave the loop in the state
    * `PackedSoFar` describes. */
  lemma {:induction false} PackStepsSoFar(c: Cache, tasks: seq<Task>, n: nat)
    requires Consistent(c) && ReferencesHaveStart(tasks) && n <= |tasks|
    requires |PackSteps(c, tasks, n).1| == n
    ensures PackedSoFar(c, tasks, n, PackSteps(c, tasks, n).0, PackSteps(c, tasks, n).1)
    decreases n
  {
    if n == 0 {
      PackStart(c, tasks);
    } else {
      var prev := PackSteps(c, tasks, n - 1);
      PackStepsSoFar(c, tasks, n - 1);
      PackAdvance(c, tasks, n - 1, prev.0, prev.1);
    }
  }

  /** The loop's exit: all tasks taken, or the next one does not fit. Either
    * way the loop has computed `Pack`. */
  lemma {:induction false} PackStepsDone(c: Cache, tasks: seq<Task>, n: nat)
    requires Consistent(c) && ReferencesHaveStart(tasks) && n <= |tasks|
    requires |PackSteps(c, tasks, n).1| == n
    requires n < |tasks| ==> Admit(PackSteps(c, tasks, n).0, tasks[n].reference, false).1 < 0
    ensures Pack(c, tasks) == PackSteps(c, tasks, n)
  {
    var r := PackSteps(c, tasks, n);
    PackStepsSoFar(c, tasks, n);
    if n == |tasks| {
      PackDone(c, tasks, r.0, r.1);
    } else {
      PackAdvance(c, tasks, n, r.0, r.1);
    }
  }

  /** The state of the packing loop after `i` iterations that each took
    * their task: the cache `c` and positions `refs` are those of the first
    * `i` steps of packing `tasks` from `c1`. */
  ghost predicate PackedPrefix(c1: Cache, tasks: seq<Task>, i: nat, c: Cache, refs: seq<int>)
  {
    Consistent(c1) && ReferencesHaveStart(tasks) && i <= |tasks| &&
    PackSteps(c1, tasks, i) == (c, refs) && |refs| == i
  }

  lemma {:induction false} PackedPrefixStart(c1: Cache, tasks: seq<Task>)
    requires Consistent(c1) && ReferencesHaveStart(tasks)
    ensures PackedPrefix(c1, tasks, 0, c1, [])
  {
  }

  lemma {:induction false} PackedPrefixNext(c1: Cache, tasks: seq<Task>, i: nat, c: Cache, refs: seq<int>)
    requires PackedPrefix(c1, tasks, i, c, refs) && i < |tasks|
    ensures Consistent(c) && tasks[i].reference.startNode.Node?
  {
  }

  /** An iteration whose reference is admitted extends the prefix by it. */
  lemma {:induction false} PackedPrefixTake(c1: Cache, tasks: seq<Task>, i: nat, c: Cache, refs: seq<int>,
                                            p: int, c2: Cache)
    requires PackedPrefix(c1, tasks, i, c, refs) && i < |tasks|
    requires Consistent(c) && tasks[i].reference.startNode.Node?
    requires (c2, p) == Admit(c, tasks[i].reference, false) && p >= 0
    ensures PackedPrefix(c1, tasks, i + 1, c2, refs + [p])
  {
    PackStepsNext(c1, tasks, i, c, refs);
  }

  /** The loop ends with all tasks taken or at a reference that does not
    * fit; either way it has computed `Pack`. */
  lemma {:induction false} PackedPrefixDone(c1: Cache, tasks: seq<Task>, i: nat, c: Cache, refs: seq<int>)
    requires PackedPrefix(c1, tasks, i, c, refs)
    requires i < |tasks| ==>
      Consistent(c) && tasks[i].reference.startNode.Node? && Admit(c, tasks[i].reference, false).1 < 0
    ensures Pack(c1, tasks) == (c, refs)
  {
    PackStepsDone(c1, tasks, i);
  }

  lemma {:induction false} EmptyConsistent(remaining: nat)
    ensures Consistent(Cache([], map[], remaining))
  {
    var c := Cache([], map[], remaining);
    forall i ensures SlotIndexed(c, i) {}
    forall k ensures EntryIndexed(c, k) {}
  }

  /** The example of a 100-point budget: a 40-point query leaves 60; a
    * 30-point reference fits (30 left); a 50-point reference does not, so
    * packing stops there and the 10-point reference behind it is never
    * tried. */
  lemma {:induction false} BudgetExample(q: SubTableState, r1: SubTableState, r2: SubTableState, r3: SubTableState)
    requires q.startNode.Node? && r1.startNode.Node? && r2.startNode.Node? && r3.startNode.Node?
    requires q.startNode.count == 40 && r1.startNode.count == 30
    requires r2.startNode.count == 50 && r3.startNode.count == 10
    requires q.Id() != r1.Id() && q.Id() != r2.Id() && r1.Id() != r2.Id()
    ensures Consistent(Cache([], map[], 100))
    ensures var a := Admit(Cache([], map[], 100), q, true);
      a.1 == 0 && a.0.remaining == 60 &&
      var r := Pack(a.0, [Task(r1, 1), Task(r2, 1), Task(r3, 1)]);
      r.1 == [1] && r.0.remaining == 30
  {
    EmptyConsistent(100);
    var c0 := Cache([], map[], 100);
    var a := Admit(c0, q, true);
    AdmitNew(c0, q, true);
    assert a.0.index == map[q.Id() := 0];
    BudgetExamplePack(a.0, q, r1, r2, r3);
  }

  /** The packing half of `BudgetExample`, from the cache holding only the
    * query, with 60 points left. */
  lemma {:induction false} BudgetExamplePack(c: Cache, q: SubTableState, r1: SubTableState, r2: SubTableState,
                                             r3: SubTableState)
    requires q.startNode.Node? && r1.startNode.Node? && r2.startNode.Node? && r3.startNode.Node?
    requires Consistent(c) && c.remaining == 60 && |c.slots| == 1 && c.index == map[q.Id() := 0]
    requires r1.startNode.count == 30 && r2.startNode.count == 50
    requires q.Id() != r1.Id() && q.Id() != r2.Id() && r1.Id() != r2.Id()
    ensures var r := Pack(c, [Task(r1, 1), Task(r2, 1), Task(r3, 1)]);
      r.1 == [1] && r.0.remaining == 30
  {
    var tasks := [Task(r1, 1), Task(r2, 1), Task(r3, 1)];
    PackStep(c, tasks);
    var b := Admit(c, r1, false);
    AdmitNew(c, r1, false);
    assert b.1 == 1 && b.0.remaining == 30;
    assert b.0.index == map[q.Id() := 0, r1.Id() := 1];
    var rest := tasks[1..];
    assert rest[0] == Task(r2, 1);
    PackStep(b.0, rest);
    AdmitRejects(b.0, r2, false);
    assert Pack(b.0, rest) == (b.0, []);
  }

  /** A donated list holds positions of existing slots. */
  predicate DonationValid(d: DonatedTask, n: nat)
  {
    0 <= d.query < n && forall j :: 0 <= j < |d.references| ==> 0 <= d.references[j] < n
  }

  predicate PositionsValid(donated: seq<DonatedTask>, n: nat)
  {
    forall i :: 0 <= i < |donated| ==> DonationValid(donated[i], n)
  }

  /** Positions stay valid as the vector grows and a valid list is added. */
  lemma {:induction false} PositionsGrow(donated: seq<DonatedTask>, n: nat, m: nat, d: DonatedTask)
    requires PositionsValid(donated, n) && n <= m && DonationValid(d, m)
    ensures PositionsValid(donated + [d], m)
  {
    forall i | 0 <= i < |donated + [d]|
      ensures DonationValid((donated + [d])[i], m)
    {
      if i < |donated| {
        assert (donated + [d])[i] == donated[i] && DonationValid(donated[i], n);
      }
    }
  }

  /** The state a task list keeps between calls: the map agrees with the
    * slots, the budget is conserved and every donated list holds at least
    * one reference, all of them (and its query) positions of held slots. */
  ghost predicate Bundle(c: Cache, budget: nat, donated: seq<DonatedTask>)
  {
    Consistent(c) && Conserves(c, budget) && PositionsValid(donated, |c.slots|) &&
    forall i :: 0 <= i < |donated| ==> |donated[i].references| > 0
  }

  /** A successful donation keeps the bundle's state: the vector only
    * grew, and the new list names held slots. */
  lemma {:induction false} BundleDonate(c: Cache, budget: nat, donated: seq<DonatedTask>, c2: Cache, d: DonatedTask)
    requires Bundle(c, budget, donated)
    requires Consistent(c2) && Conserves(c2, budget) && |c2.slots| >= |c.slots|
    requires DonationValid(d, |c2.slots|) && |d.references| > 0
    ensures Bundle(c2, budget, donated + [d])
  {
    PositionsGrow(donated, |c.slots|, |c2.slots|, d);
    forall i | 0 <= i < |donated + [d]|
      ensures |(donated + [d])[i].references| > 0
    {
      if i < |donated| {
        assert (donated + [d])[i] == donated[i];
      }
    }
  }

  /** Withdrawing a query keeps the bundle's state when the withdrawal
    * leaves the recorded positions valid. */
  lemma {:induction false} BundleWithdraw(c: Cache, budget: nat, donated: seq<DonatedTask>, k: SubTableIdType)
    requires Bundle(c, budget, donated) && k in c.index
    requires PositionsValid(donated, |Release(c, k, true).slots|)
    ensures Bundle(Release(c, k, true), budget, donated)
  {
  }

  // ---------------------------------------------------------------------
  // Export
  // ---------------------------------------------------------------------

  /** The tasks `Export` pushes for one donated list: one per donated
    * reference, in order, each against the slot at that position and
    * weighted by the metric on (query, reference). */
  function DonationTasks(metric: (SubTableState, SubTableState) -> nat, slots: seq<Slot>,
                         d: DonatedTask): (ts: seq<Task>)
    requires DonationValid(d, |slots|)
    ensures |ts| == |d.references|
  {
    seq(|d.references|, j requires 0 <= j < |d.references| =>
      Task(slots[d.references[j]].table,
           metric(slots[d.query].table, slots[d.references[j]].table)))
  }

  /** The query lists `Export` appends to the destination queue: one per
    * donated list, for the query at that position, tagged with the sending
    * rank. */
  function Exported(metric: (SubTableState, SubTableState) -> nat, sourceRank: int,
                    slots: seq<Slot>, donated: seq<DonatedTask>): (qs: seq<QueryTasks>)
    requires PositionsValid(donated, |slots|)
    ensures |qs| == |donated|
  {
    seq(|donated|, i requires 0 <= i < |donated| =>
      QueryTasks(slots[donated[i].query].table, DonationTasks(metric, slots, donated[i]), sourceRank))
  }

  function ReferenceCount(donated: seq<DonatedTask>): nat
  {
    if donated == [] then 0 else |donated[0].references| + ReferenceCount(donated[1..])
  }

  function TaskCount(qs: seq<QueryTasks>): nat
  {
    if qs == [] then 0 else |qs[0].tasks| + TaskCount(qs[1..])
  }

  /** `Export` pushes exactly as many tasks as there are donated references. */
  lemma {:induction false} ExportedTaskCount(metric: (SubTableState, SubTableState) -> nat, sourceRank: int,
                                             slots: seq<Slot>, donated: seq<DonatedTask>)
    requires PositionsValid(donated, |slots|)
    ensures TaskCount(Exported(metric, sourceRank, slots, donated)) == ReferenceCount(donated)
    decreases |donated|
  {
    if donated != [] {
      var qs := Exported(metric, sourceRank, slots, donated);
      assert qs[1..] == Exported(metric, sourceRank, slots, donated[1..]);
      ExportedTaskCount(metric, sourceRank, slots, donated[1..]);
    }
  }

  function SlotTables(slots: seq<Slot>): (ts: seq<SubTableState>)
    ensures |ts| == |slots| && forall i :: 0 <= i < |slots| ==> ts[i] == slots[i].table
  {
    seq(|slots|, i requires 0 <= i < |slots| => slots[i].table)
  }

  function SlotReferences(slots: seq<Slot>): (rs: seq<int>)
    ensures |rs| == |slots| && forall i :: 0 <= i < |slots| ==> rs[i] == slots[i].refCount
  {
    seq(|slots|, i requires 0 <= i < |slots| => slots[i].refCount)
  }

  // ---------------------------------------------------------------------
  // The flat image of a bundle
  // ---------------------------------------------------------------------

  predicate StartNodes(slots: seq<Slot>)
  {
    forall i :: 0 <= i < |slots| ==> slots[i].table.startNode.Node?
  }

  function EncodeSlots(slots: seq<Slot>): seq<int>
    requires StartNodes(slots)
  {
    if slots == [] then []
    else EncodeImage(SavedImage(slots[0].table)) + [slots[0].refCount] + EncodeSlots(slots[1..])
  }

  function EncodeDonated(donated: seq<DonatedTask>): seq<int>
  {
    if donated == [] then []
    else [donated[0].query, |donated[0].references|] + donated[0].references + EncodeDonated(donated[1..])
  }

  /** The image `save` writes: the number of slots, then (only when there is
    * at least one) every slot's subtable followed by its reference count,
    * the number of donated lists and each list as query position, length and
    * reference positions. */
  function EncodeTaskList(slots: seq<Slot>, donated: seq<DonatedTask>): seq<int>
    requires StartNodes(slots)
  {
    [|slots|] + (if |slots| > 0 then EncodeSlots(slots) + [|donated|] + EncodeDonated(donated) else [])
  }

  /** A slot after `save`: an aliasing subtable has the start node's range
    * appended to its point ranges. */
  function SavedSlot(slot: Slot): (r: Slot)
    requires slot.table.startNode.Node?
    ensures r.refCount == slot.refCount && r.isQuery == slot.isQuery
    ensures r.table == slot.table.(flags := SavedFlags(slot.table))
  {
    slot.(table := slot.table.(flags := SavedFlags(slot.table)))
  }

  /** The slots after `save`. */
  function SavedSlots(slots: seq<Slot>): (r: seq<Slot>)
    requires StartNodes(slots)
    ensures |r| == |slots|
    ensures forall i :: 0 <= i < |slots| ==> r[i] == SavedSlot(slots[i])
  {
    seq(|slots|, i requires 0 <= i < |slots| => SavedSlot(slots[i]))
  }

  lemma EncodeSlotsPrefix(slots: seq<Slot>, i: int)
    requires StartNodes(slots) && 0 <= i < |slots|
    ensures StartNodes(slots[..i]) && StartNodes(slots[..i + 1])
    ensures EncodeSlots(slots[..i + 1]) ==
      EncodeSlots(slots[..i]) + EncodeImage(SavedImage(slots[i].table)) + [slots[i].refCount]
  {
    assert slots[..i + 1] == slots[..i] + [slots[i]];
    EncodeSlotsAppend(slots[..i], slots[i]);
  }

  /** The loop of `save` over the slots: writes each slot's image and
    * reference count, and records the point range an alias adds. */
  method SaveSlotList(slots: seq<Slot>) returns (ws: seq<int>, saved: seq<Slot>)
    requires StartNodes(slots)
    ensures ws == EncodeSlots(slots)
    ensures saved == SavedSlots(slots)
  {
    saved := slots;
    ws := [];
    var i := 0;
    while i < |slots|
      invariant 0 <= i <= |slots| == |saved|
      invariant ws == EncodeSlots(slots[..i])
      invariant forall k :: 0 <= k < i ==> saved[k] == SavedSlot(slots[k])
      invariant forall k :: i <= k < |slots| ==> saved[k] == slots[k]
    {
      var slot := slots[i];
      ws := ws + EncodeImage(SavedImage(slot.table)) + [slot.refCount];
      saved := saved[i := SavedSlot(slot)];
      EncodeSlotsPrefix(slots, i);
      i := i + 1;
    }
    assert slots[..i] == slots;
  }

  /** Reads `n` slots; slot i gets cache block id `first + i`, is an owner,
    * and is not marked as a query (`load` never restores that flag). */
  function ParseSlots(ws: seq<int>, first: int, n: nat): Option<(seq<Slot>, seq<int>)>
    decreases n
  {
    if n == 0 then Some(([], ws))
    else
      var head := ParseImage(ws);
      if head.None? || |head.value.1| < 1 then None
      else
        var ws1 := head.value.1;
        var tail := ParseSlots(ws1[1..], first + 1, n - 1);
        if tail.None? then None
        else Some(([Slot(LoadedState(first, head.value.0), false, ws1[0])] + tail.value.0, tail.value.1))
  }

  function ParseDonated(ws: seq<int>, n: nat): Option<(seq<DonatedTask>, seq<int>)>
    decreases n
  {
    if n == 0 then Some(([], ws))
    else if |ws| < 2 || ws[1] < 0 || |ws| - 2 < ws[1] then None
    else
      var refs := ws[2 .. 2 + ws[1]];
      match ParseDonated(ws[2 + ws[1]..], n - 1)
      case None => None
      case Some((rest, ws2)) => Some(([DonatedTask(ws[0], refs)] + rest, ws2))
  }

  /** What `load` reads: None when it would misread the input; Some(None)
    * when the slot count is not positive and nothing is loaded; otherwise
    * the slots and the donated lists. */
  function ParseTaskList(ws: seq<int>): Option<Option<(seq<Slot>, seq<DonatedTask>)>>
  {
    if |ws| < 1 then None
    else if ws[0] <= 0 then Some(None)
    else
      var slots := ParseSlots(ws[1..], 0, ws[0]);
      if slots.None? then None
      else
        var ws1 := slots.value.1;
        if |ws1| < 1 || ws1[0] < 0 then None
        else
          var donated := ParseDonated(ws1[1..], ws1[0]);
          if donated.None? then None
          else Some(Some((slots.value.0, donated.value.0)))
  }

  /** The slots `load` rebuilds from the slots `save` wrote. */
  function LoadedSlots(slots: seq<Slot>, first: int): (r: seq<Slot>)
    requires StartNodes(slots)
    ensures |r| == |slots|
    decreases |slots|
  {
    if slots == [] then []
    else
      StartNodeFlattening(slots[0].table.startNode);
      [Slot(LoadedState(first, SavedImage(slots[0].table)), false, slots[0].refCount)] +
      LoadedSlots(slots[1..], first + 1)
  }

  ghost predicate TreesWellFormed(slots: seq<Slot>)
    requires StartNodes(slots)
  {
    forall i :: 0 <= i < |slots| ==> WellFormed(slots[i].table.startNode)
  }

  lemma {:induction false} ParseEncodeSlots(slots: seq<Slot>, first: int, rest: seq<int>)
    requires StartNodes(slots) && TreesWellFormed(slots)
    ensures ParseSlots(EncodeSlots(slots) + rest, first, |slots|) == Some((LoadedSlots(slots, first), rest))
    decreases |slots|
  {
    if slots == [] {
      assert EncodeSlots(slots) + rest == rest;
    } else {
      var s := slots[0];
      var img := SavedImage(s.table);
      var later := EncodeSlots(slots[1..]) + rest;
      var tail := [s.refCount] + later;
      assert EncodeSlots(slots) + rest == EncodeImage(img) + tail;
      SaveLoadState(s.table, first, tail);
      assert tail[1..] == later;
      ParseEncodeSlots(slots[1..], first + 1, rest);
      var ws := EncodeSlots(slots) + rest;
      assert ParseImage(ws) == Some((img, tail));
      assert ParseSlots(ws, first, |slots|) ==
        Some(([Slot(LoadedState(first, img), false, s.refCount)] + LoadedSlots(slots[1..], first + 1), rest));
    }
  }

  lemma {:induction false} ParseEncodeDonated(donated: seq<DonatedTask>, rest: seq<int>)
    ensures ParseDonated(EncodeDonated(donated) + rest, |donated|) == Some((donated, rest))
    decreases |donated|
  {
    if donated == [] {
      assert EncodeDonated(donated) + rest == rest;
    } else {
      var d := donated[0];
      var later := EncodeDonated(donated[1..]) + rest;
      var ws := EncodeDonated(donated) + rest;
      assert ws == [d.query, |d.references|] + d.references + later;
      assert ws[0] == d.query && ws[1] == |d.references|;
      assert ws[2 .. 2 + |d.references|] == d.references;
      assert ws[2 + |d.references|..] == later;
      ParseEncodeDonated(donated[1..], rest);
      assert ParseDonated(later, |donated| - 1) == Some((donated[1..], rest));
      assert ParseDonated(ws, |donated|) == Some(([DonatedTask(d.query, d.references)] + donated[1..], rest));
      assert [DonatedTask(d.query, d.references)] + donated[1..] == donated;
    }
  }

  /** Slot `l` is what `load` makes, in the slot with cache block id
    * `cacheBlockId`, of the slot `s` that `save` wrote: same reference
    * count, not a query, the same identity and tree, and the point ranges as
    * saved. */
  ghost predicate LoadedFrom(l: Slot, s: Slot, cacheBlockId: int)
  {
    s.table.startNode.Node? && l.table.startNode.Node? &&
    l.refCount == s.refCount && !l.isQuery && l.table.cacheBlockId == cacheBlockId &&
    l.table.Id() == s.table.Id() && l.table.startNode == s.table.startNode &&
    l.table.flags == SavedFlags(s.table)
  }

  /** Round trip of a bundle: `load` of what `save` wrote gives back the
    * donated lists unchanged and one slot per saved slot, loaded from it
    * with cache block id equal to its position. */
  lemma {:induction false} TaskListRoundTrip(slots: seq<Slot>, donated: seq<DonatedTask>)
    requires StartNodes(slots) && TreesWellFormed(slots) && |slots| > 0
    ensures ParseTaskList(EncodeTaskList(slots, donated)) == Some(Some((LoadedSlots(slots, 0), donated)))
    ensures forall i :: 0 <= i < |slots| ==> LoadedFrom(LoadedSlots(slots, 0)[i], slots[i], i)
  {
    var ws := EncodeTaskList(slots, donated);
    var tail := [|donated|] + EncodeDonated(donated);
    assert EncodeSlots(slots) + [|donated|] + EncodeDonated(donated) == EncodeSlots(slots) + tail;
    assert ws == [|slots|] + (EncodeSlots(slots) + tail);
    assert ws[0] == |slots| && ws[1..] == EncodeSlots(slots) + tail;
    ParseEncodeSlots(slots, 0, tail);
    assert ParseSlots(ws[1..], 0, ws[0]) == Some((LoadedSlots(slots, 0), tail));
    assert tail[0] == |donated| && tail[1..] == EncodeDonated(donated) + [];
    ParseEncodeDonated(donated, []);
    assert ParseDonated(tail[1..], tail[0]) == Some((donated, []));
    LoadedSlotsAt(slots, 0);
  }

  /** An empty bundle: `save` writes only the count 0, and `load` reads
    * it as "nothing to load", whatever donated lists there were. */
  lemma EmptyTaskListRoundTrip(donated: seq<DonatedTask>)
    ensures StartNodes([])
    ensures EncodeTaskList([], donated) == [0]
    ensures ParseTaskList(EncodeTaskList([], donated)) == Some(None)
  {
  }

  lemma {:induction false} LoadedSlotsAt(slots: seq<Slot>, first: int)
    requires StartNodes(slots) && TreesWellFormed(slots)
    ensures forall i :: 0 <= i < |slots| ==> LoadedFrom(LoadedSlots(slots, first)[i], slots[i], first + i)
    decreases |slots|
  {
    if slots != [] {
      var rest := LoadedSlots(slots[1..], first + 1);
      var l := LoadedSlots(slots, first);
      assert l[1..] == rest;
      SaveLoadState(slots[0].table, first, []);
      assert LoadedFrom(l[0], slots[0], first);
      LoadedSlotsAt(slots[1..], first + 1);
      forall i | 1 <= i < |slots|
        ensures LoadedFrom(l[i], slots[i], first + i)
      {
        assert l[i] == rest[i - 1] && slots[i] == slots[1..][i - 1];
      }
    }
  }

  lemma {:induction false} EncodeSlotsAppend(slots: seq<Slot>, x: Slot)
    requires StartNodes(slots) && x.table.startNode.Node?
    ensures StartNodes(slots + [x])
    ensures EncodeSlots(slots + [x]) == EncodeSlots(slots) + EncodeImage(SavedImage(x.table)) + [x.refCount]
    decreases |slots|
  {
    if slots == [] {
      assert [x][1..] == [];
    } else {
      assert (slots + [x])[1..] == slots[1..] + [x];
      EncodeSlotsAppend(slots[1..], x);
    }
  }

  lemma {:induction false} EncodeDonatedAppend(donated: seq<DonatedTask>, d: DonatedTask)
    ensures EncodeDonated(donated + [d]) == EncodeDonated(donated) + [d.query, |d.references|] + d.references
    decreases |donated|
  {
    if donated == [] {
      assert [d][1..] == [];
    } else {
      assert (donated + [d])[1..] == donated[1..] + [d];
      EncodeDonatedAppend(donated[1..], d);
    }
  }

  /** Prefixes `xs` to what a parse produced. */
  function Prepend<T>(xs: seq<T>, t: Option<(seq<T>, seq<int>)>): (r: Option<(seq<T>, seq<int>)>)
    ensures r.Some? <==> t.Some?
    ensures r.Some? ==> r.value.0 == xs + t.value.0 && r.value.1 == t.value.1
  {
    if t.None? then None else Some((xs + t.value.0, t.value.1))
  }

  lemma PrependNil<T>(t: Option<(seq<T>, seq<int>)>)
    ensures Prepend([], t) == t
  {
    if t.Some? {
      assert [] + t.value.0 == t.value.0;
    }
  }

  lemma PrependPrepend<T>(xs: seq<T>, ys: seq<T>, t: Option<(seq<T>, seq<int>)>)
    ensures Prepend(xs, Prepend(ys, t)) == Prepend(xs + ys, t)
  {
    if t.Some? {
      assert xs + (ys + t.value.0) == (xs + ys) + t.value.0;
    }
  }

  /** Overwriting the hole with the last entry and dropping the last entry
    * gives the same list whatever the hole held before. */
  lemma {:induction false} SwapPop(slots: seq<Slot>, p: nat, x: Slot)
    requires p < |slots|
    ensures var s := slots[p := x];
      s[p := s[|s| - 1]][..|s| - 1] == slots[p := slots[|slots| - 1]][..|slots| - 1]
  {
    var n := |slots|;
    var s := slots[p := x];
    var l := s[p := s[n - 1]][..n - 1];
    var r := slots[p := slots[n - 1]][..n - 1];
    forall i | 0 <= i < n - 1
      ensures l[i] == r[i]
    {
    }
  }

  /** The (cache block id, count) pairs `ReleaseCache` hands back, one per
    * slot in slot order. */
  function CacheReleases(slots: seq<Slot>): (rs: seq<(int, int)>)
    ensures |rs| == |slots|
    ensures forall i :: 0 <= i < |slots| ==> rs[i] == (slots[i].table.cacheBlockId, slots[i].refCount)
  {
    seq(|slots|, i requires 0 <= i < |slots| => (slots[i].table.cacheBlockId, slots[i].refCount))
  }

  // ---------------------------------------------------------------------
  // The task list object
  // ---------------------------------------------------------------------

  class DistributedDualtreeTaskList {
    /** The rank the tasks are donated to. */
    var destinationRank: int
    /** The local task queue the tasks are taken from (null until `Init`). */
    var queue: TaskQueue?
    var donatedTaskList: seq<DonatedTask>
    var idToPositionMap: map<SubTableIdType, int>
    var remainingExtraPointsToHold: nat
    var subTables: seq<Slot>
    /** The budget given to `Init` plus the points held at that moment. */
    ghost var budget: nat

    function CacheOf(): Cache
      reads this
    {
      Cache(subTables, idToPositionMap, remainingExtraPointsToHold)
    }

    /** The map agrees with the slots, the budget is conserved and every
      * donated list holds at least one reference, all of them (and its
      * query) positions of held slots. */
    ghost predicate Valid()
      reads this
    {
      Bundle(CacheOf(), budget, donatedTaskList)
    }

    /** The default constructor: destination rank 0, no queue, no budget. */
    constructor ()
      ensures Valid() && budget == 0
      ensures destinationRank == 0 && queue == null && remainingExtraPointsToHold == 0
      ensures subTables == [] && idToPositionMap == map[] && donatedTaskList == []
    {
      destinationRank := 0;
      queue := null;
      donatedTaskList := [];
      idToPositionMap := map[];
      remainingExtraPointsToHold := 0;
      subTables := [];
      budget := 0;
      new;
      EmptyConsistent(0);
    }

    /** `FindSubTable_`: the slot position of an identity, or -1. */
    method FindSubTable_(id: SubTableIdType) returns (found: bool, position: int)
      requires Consistent(CacheOf())
      ensures found <==> id in idToPositionMap
      ensures found ==> 0 <= position < |subTables| && Live(subTables[position]) &&
                        Key(subTables[position]) == id
      ensures !found ==> position == -1
    {
      if id in idToPositionMap {
        EntryOf(CacheOf(), id);
        found, position := true, idToPositionMap[id];
      } else {
        found, position := false, -1;
      }
    }

    /** `push_back_`. */
    method PushBack_(s: SubTableState, countAsQuery: bool) returns (position: int)
      requires Consistent(CacheOf()) && s.startNode.Node?
      modifies this`subTables, this`idToPositionMap, this`remainingExtraPointsToHold
      ensures (CacheOf(), position) == Admit(old(CacheOf()), s, countAsQuery)
    {
      ghost var c := CacheOf();
      var id := s.Id();
      var found, existingPosition := FindSubTable_(id);
      if found {
        SlotOf(c, existingPosition);
        if !countAsQuery {
          subTables := subTables[existingPosition :=
            subTables[existingPosition].(refCount := subTables[existingPosition].refCount + 1)];
        } else {
          subTables := subTables[existingPosition :=
            Slot(AliasOf(s), true, subTables[existingPosition].refCount)];
        }
        return existingPosition;
      } else if s.startNode.count <= remainingExtraPointsToHold {
        subTables := subTables + [Slot(AliasOf(s), countAsQuery, if countAsQuery then 0 else 1)];
        idToPositionMap := idToPositionMap[id := |subTables| - 1];
        remainingExtraPointsToHold := remainingExtraPointsToHold - s.startNode.count;
        return |subTables| - 1;
      }
      return -1;
    }

    /** `pop_`, with the remapping of the moved slot done only when a slot
      * was actually moved into the hole. */
    method Pop_(id: SubTableIdType, countAsQuery: bool)
      requires Consistent(CacheOf()) && id in idToPositionMap
      requires countAsQuery || subTables[Position(CacheOf(), id)].refCount > 0
      modifies this`subTables, this`idToPositionMap, this`remainingExtraPointsToHold
      ensures CacheOf() == Release(old(CacheOf()), id, countAsQuery)
    {
      ghost var c := CacheOf();
      EntryOf(c, id);
      SlotOf(c, |subTables| - 1);
      var removePosition := idToPositionMap[id];
      if countAsQuery {
        subTables := subTables[removePosition := subTables[removePosition].(isQuery := false)];
      } else {
        subTables := subTables[removePosition :=
          subTables[removePosition].(refCount := subTables[removePosition].refCount - 1)];
      }
      ghost var slot := subTables[removePosition];
      if !subTables[removePosition].isQuery && subTables[removePosition].refCount == 0 {
        assert Release(c, id, countAsQuery) == Evict(c, removePosition);
        EvictSlot_(c, removePosition);
      } else {
        ghost var r := Replace(c, removePosition, slot);
        assert Release(c, id, countAsQuery) == r;
        assert subTables == r.slots;
      }
    }

    /** The eviction in `pop_` of the slot at `p`, whose flags may already
      * have been lowered: the last slot moves into the hole, the evicted
      * identity leaves the map, the moved one is remapped to `p` and the
      * points are refunded. */
    method EvictSlot_(ghost c: Cache, p: int)
      requires Consistent(c) && 0 <= p < |c.slots|
      requires |subTables| == |c.slots| && subTables == c.slots[p := subTables[p]]
      requires subTables[p].table == c.slots[p].table
      requires idToPositionMap == c.index && remainingExtraPointsToHold == c.remaining
      modifies this`subTables, this`idToPositionMap, this`remainingExtraPointsToHold
      ensures CacheOf() == Evict(c, p)
    {
      ghost var r := Evict(c, p);
      ghost var slot := subTables[p];
      var n := |subTables|;
      assert subTables[n - 1].table == c.slots[n - 1].table;
      var lastId := Key(subTables[n - 1]);
      remainingExtraPointsToHold := remainingExtraPointsToHold + Points(subTables[p]);
      idToPositionMap := idToPositionMap - {Key(subTables[p])};
      subTables := subTables[p := subTables[n - 1]];
      subTables := subTables[..n - 1];
      if p < |subTables| {
        idToPositionMap := idToPositionMap[lastId := p];
      }
      SwapPop(c.slots, p, slot);
      assert subTables == r.slots && idToPositionMap == r.index && remainingExtraPointsToHold == r.remaining;
    }

    /** `Init`: sets the destination, the queue and the budget of extra
      * points; the communicator is not part of this model. */
    method Init(destinationRankIn: int, remainingExtraPointsToHoldIn: nat, queueIn: TaskQueue)
      requires Valid()
      modifies this`destinationRank, this`queue, this`remainingExtraPointsToHold, this`budget
      ensures Valid()
      ensures destinationRank == destinationRankIn && queue == queueIn
      ensures remainingExtraPointsToHold == remainingExtraPointsToHoldIn
      ensures budget == remainingExtraPointsToHoldIn + Held(subTables)
    {
      destinationRank := destinationRankIn;
      queue := queueIn;
      remainingExtraPointsToHold := remainingExtraPointsToHoldIn;
      budget := remainingExtraPointsToHoldIn + Held(subTables);
      WithRemaining(old(CacheOf()), remainingExtraPointsToHoldIn);
    }

    /** `push_back(probe_index)`: tries to donate the query list at
      * `probe`. The query is admitted as a query (or nothing happens when
      * it does not fit); then its tasks are packed greedily in queue order
      * (`TakeReferences`). With no task taken the query is withdrawn again
      * and the result is false; otherwise the donation is recorded, the
      * query is locked for the destination and the result is true. */
    method PushBack(probe: nat) returns (locked: bool)
      requires Valid() && queue != null && probe < |queue.queues|
      requires queue.queues[probe].query.startNode.Node?
      requires !DonatedQuery(CacheOf(), queue.queues[probe].query.Id())
      requires ReferencesHaveStart(queue.queues[probe].tasks)
      modifies this`subTables, this`idToPositionMap, this`remainingExtraPointsToHold,
               this`donatedTaskList, queue`queues, queue`remainingLocalComputation
      ensures Valid() && budget == old(budget)
      ensures var q := old(queue.queues[probe]);
        var a := Admit(old(CacheOf()), q.query, true);
        a.1 < 0 ==>
          !locked && CacheOf() == old(CacheOf()) && donatedTaskList == old(donatedTaskList) &&
          queue.queues == old(queue.queues) &&
          queue.remainingLocalComputation == old(queue.remainingLocalComputation)
      ensures var q := old(queue.queues[probe]);
        var a := Admit(old(CacheOf()), q.query, true);
        a.1 >= 0 && Pack(a.0, q.tasks).1 == [] ==>
          !locked && CacheOf() == Release(a.0, q.query.Id(), true) &&
          donatedTaskList == old(donatedTaskList) && queue.queues == old(queue.queues) &&
          queue.remainingLocalComputation == old(queue.remainingLocalComputation)
      ensures var q := old(queue.queues[probe]);
        var a := Admit(old(CacheOf()), q.query, true);
        var p := Pack(a.0, q.tasks);
        a.1 >= 0 && p.1 != [] ==>
          locked && CacheOf() == p.0 &&
          donatedTaskList == old(donatedTaskList) + [DonatedTask(a.1, p.1)] &&
          queue.queues == old(queue.queues)[probe :=
            q.(query := q.query.(lockedMpiRank := destinationRank), tasks := q.tasks[|p.1|..])] &&
          queue.remainingLocalComputation ==
            old(queue.remainingLocalComputation) - TotalWork(q.tasks[..|p.1|])
    {
      ghost var q := queue.queues[probe];
      ghost var a := Admit(CacheOf(), q.query, true);
      var querySubTable := queue.QuerySubTable(probe);
      var queryPosition := PushBack_(querySubTable, true);
      assert CacheOf() == a.0 && queryPosition == a.1;
      if queryPosition < 0 {
        return false;
      }
      WithdrawKeepsPositions(old(CacheOf()), q.query);
      locked := DonateQuery_(probe, queryPosition);
    }

    /** The withdrawal in `push_back` when no reference was taken: releases
      * the query and drops the donated list just opened for it. */
    method Withdraw_(id: SubTableIdType)
      requires Consistent(CacheOf()) && id in idToPositionMap && |donatedTaskList| > 0
      modifies this`subTables, this`idToPositionMap, this`remainingExtraPointsToHold, this`donatedTaskList
      ensures CacheOf() == Release(old(CacheOf()), id, true)
      ensures donatedTaskList == old(donatedTaskList)[..|old(donatedTaskList)| - 1]
    {
      Pop_(id, true);
      donatedTaskList := donatedTaskList[..|donatedTaskList| - 1];
    }

    /** The rest of `push_back` once the query is admitted at
      * `queryPosition`: opens a donated list for it, packs the references
      * (`TakeReferences`), then either withdraws the query and the list
      * when no reference was taken, or locks the query for the
      * destination. */
    method DonateQuery_(probe: nat, queryPosition: int) returns (locked: bool)
      requires Valid() && queue != null && probe < |queue.queues|
      requires queue.queues[probe].query.startNode.Node?
      requires queue.queues[probe].query.Id() in idToPositionMap
      requires 0 <= queryPosition < |subTables|
      requires PositionsValid(donatedTaskList, |Release(CacheOf(), queue.queues[probe].query.Id(), true).slots|)
      requires ReferencesHaveStart(queue.queues[probe].tasks)
      modifies this`subTables, this`idToPositionMap, this`remainingExtraPointsToHold,
               this`donatedTaskList, queue`queues, queue`remainingLocalComputation
      ensures Valid() && budget == old(budget)
      ensures var q := old(queue.queues[probe]);
        Pack(old(CacheOf()), q.tasks).1 == [] ==>
          !locked && CacheOf() == Release(old(CacheOf()), q.query.Id(), true) &&
          donatedTaskList == old(donatedTaskList) && queue.queues == old(queue.queues) &&
          queue.remainingLocalComputation == old(queue.remainingLocalComputation)
      ensures var q := old(queue.queues[probe]);
        var p := Pack(old(CacheOf()), q.tasks);
        p.1 != [] ==>
          locked && CacheOf() == p.0 &&
          donatedTaskList == old(donatedTaskList) + [DonatedTask(queryPosition, p.1)] &&
          queue.queues == old(queue.queues)[probe :=
            q.(query := q.query.(lockedMpiRank := destinationRank), tasks := q.tasks[|p.1|..])] &&
          queue.remainingLocalComputation ==
            old(queue.remainingLocalComputation) - TotalWork(q.tasks[..|p.1|])
    {
      ghost var q := queue.queues[probe];
      var querySubTable := queue.QuerySubTable(probe);
      ghost var donated0 := donatedTaskList;
      donatedTaskList := donatedTaskList + [DonatedTask(queryPosition, [])];
      ghost var p := Pack(CacheOf(), q.tasks);
      var references := TakeReferences(probe);
      assert CacheOf() == p.0 && references == p.1;
      if |references| == 0 {
        Withdraw_(querySubTable.Id());
        assert donatedTaskList == donated0;
        BundleWithdraw(old(CacheOf()), budget, donated0, q.query.Id());
        return false;
      } else {
        ghost var queues1 := queue.queues;
        queue.LockQuerySubTable(probe, destinationRank);
        assert queue.queues == queues1[probe := queues1[probe].(query := q.query.(lockedMpiRank := destinationRank))];
        assert donatedTaskList == donated0 + [DonatedTask(queryPosition, p.1)];
        BundleDonate(old(CacheOf()), budget, donated0, CacheOf(), DonatedTask(queryPosition, p.1));
        return true;
      }
    }

    /** The packing loop of `push_back`: while the query list at `probe`
      * has tasks, admits the top task's reference; stops at the first one
      * that does not fit, otherwise pops the task, records the reference
      * position in the last donated list and deducts the task's work from
      * the rank's remaining work. */
    method TakeTop_(probe: nat, ghost c1: Cache, ghost tasks: seq<Task>, ghost i: nat, ghost refs: seq<int>)
      returns (referencePosition: int)
      requires queue != null && probe < |queue.queues| && i < |tasks|
      requires queue.queues[probe].tasks == tasks[i..]
      requires PackedPrefix(c1, tasks, i, CacheOf(), refs)
      requires |donatedTaskList| > 0
      modifies this`subTables, this`idToPositionMap, this`remainingExtraPointsToHold,
               this`donatedTaskList, queue`queues, queue`remainingLocalComputation
      ensures referencePosition < 0 ==>
        Pack(c1, tasks) == (CacheOf(), refs) &&
        queue.queues == old(queue.queues) && donatedTaskList == old(donatedTaskList) &&
        queue.remainingLocalComputation == old(queue.remainingLocalComputation)
      ensures referencePosition >= 0 ==> PackedPrefix(c1, tasks, i + 1, CacheOf(), refs + [referencePosition])
      ensures var q := old(queue.queues[probe]);
        referencePosition >= 0 ==>
        queue.queues == old(queue.queues)[probe := q.(tasks := q.tasks[1..])] &&
        queue.remainingLocalComputation == old(queue.remainingLocalComputation) - q.tasks[0].work
      ensures var n := |old(donatedTaskList)|;
        referencePosition >= 0 ==>
        donatedTaskList == old(donatedTaskList)[n - 1 :=
          old(donatedTaskList)[n - 1].(references := old(donatedTaskList)[n - 1].references + [referencePosition])]
    {
      var testTask := queue.Top(probe);
      assert testTask == tasks[i];
      var stolenLocalComputation := testTask.work;
      ghost var c := CacheOf();
      PackedPrefixNext(c1, tasks, i, c, refs);
      referencePosition := PushBack_(testTask.reference, false);
      if referencePosition < 0 {
        PackedPrefixDone(c1, tasks, i, c, refs);
        return;
      }
      PackedPrefixTake(c1, tasks, i, c, refs, referencePosition, CacheOf());
      queue.Pop(probe);
      var last := donatedTaskList[|donatedTaskList| - 1];
      donatedTaskList := donatedTaskList[|donatedTaskList| - 1 :=
        last.(references := last.references + [referencePosition])];
      queue.DecrementRemainingLocalComputation(stolenLocalComputation);
    }

    method TakeReferences(probe: nat) returns (references: seq<int>)
      requires Consistent(CacheOf()) && queue != null && probe < |queue.queues|
      requires ReferencesHaveStart(queue.queues[probe].tasks)
      requires |donatedTaskList| > 0 && donatedTaskList[|donatedTaskList| - 1].references == []
      modifies this`subTables, this`idToPositionMap, this`remainingExtraPointsToHold,
               this`donatedTaskList, queue`queues, queue`remainingLocalComputation
      ensures var q := old(queue.queues[probe]);
        var p := Pack(old(CacheOf()), q.tasks);
        CacheOf() == p.0 && references == p.1 &&
        queue.queues == old(queue.queues)[probe := q.(tasks := q.tasks[|p.1|..])] &&
        queue.remainingLocalComputation ==
          old(queue.remainingLocalComputation) - TotalWork(q.tasks[..|p.1|])
      ensures var n := |old(donatedTaskList)|;
        donatedTaskList == old(donatedTaskList)[n - 1 := DonatedTask(old(donatedTaskList)[n - 1].query, references)]
    {
      ghost var q := queue.queues[probe];
      ghost var queues0 := queue.queues;
      ghost var work0 := queue.remainingLocalComputation;
      ghost var c1 := CacheOf();
      ghost var donated0 := donatedTaskList;
      ghost var n := |donatedTaskList|;
      references := [];
      ghost var dq := donated0[n - 1].query;
      ghost var i := 0;
      PackedPrefixStart(c1, q.tasks);
      while queue.Size(probe) > 0
        invariant 0 <= i <= |q.tasks| && |references| == i
        invariant queue.queues == queues0[probe := q.(tasks := q.tasks[i..])]
        invariant queue.remainingLocalComputation == work0 - TotalWork(q.tasks[..i])
        invariant PackedPrefix(c1, q.tasks, i, CacheOf(), references)
        invariant donatedTaskList == donated0[n - 1 := DonatedTask(dq, references)]
        decreases |q.tasks| - i
      {
        assert q.tasks[i..][1..] == q.tasks[i + 1..];
        TotalWorkPrefix(q.tasks, i);
        ghost var d := donatedTaskList;
        assert d[n - 1] == DonatedTask(dq, references);
        var referencePosition := TakeTop_(probe, c1, q.tasks, i, references);
        if referencePosition < 0 {
          break;
        }
        assert donatedTaskList == d[n - 1 := DonatedTask(dq, references + [referencePosition])];
        references := references + [referencePosition];
        i := i + 1;
      }
      if i == |q.tasks| {
        PackedPrefixDone(c1, q.tasks, i, CacheOf(), references);
      }
    }

    /** `Export`: makes `q` the queue, copies every slot's subtable into a
      * fresh cache block of `q` with the slot's reference count, then opens
      * one query list per donated list (tagged with `sourceRank`) holding
      * one task per donated reference, weighted by the metric. */
    method Export(metric: (SubTableState, SubTableState) -> nat, sourceRank: int, q: TaskQueue)
      requires PositionsValid(donatedTaskList, |subTables|)
      modifies this`queue, q`cache, q`cacheReferences, q`queues
      ensures queue == q
      ensures q.cache == old(q.cache) + SlotTables(subTables)
      ensures q.cacheReferences == old(q.cacheReferences) + SlotReferences(subTables)
      ensures q.queues == old(q.queues) + Exported(metric, sourceRank, subTables, donatedTaskList)
    {
      queue := q;
      ghost var cache0 := q.cache;
      var assignedCacheIndices := ExportSlots_(q);
      ghost var exported := Exported(metric, sourceRank, subTables, donatedTaskList);
      var i := 0;
      while i < |donatedTaskList|
        invariant 0 <= i <= |donatedTaskList| && queue == q
        invariant q.cache == cache0 + SlotTables(subTables)
        invariant q.cacheReferences == old(q.cacheReferences) + SlotReferences(subTables)
        invariant q.queues == old(q.queues) + exported[..i]
      {
        ExportDonation_(metric, sourceRank, q, donatedTaskList[i], cache0, assignedCacheIndices);
        assert exported[..i + 1] == exported[..i] + [exported[i]];
        i := i + 1;
      }
      assert exported[..i] == exported;
    }

    /** The first half of `Export`: every slot's subtable goes into a new
      * cache block of `q`; the block ids are returned by slot position. */
    method ExportSlots_(q: TaskQueue) returns (blocks: seq<int>)
      modifies q`cache, q`cacheReferences
      ensures q.cache == old(q.cache) + SlotTables(subTables)
      ensures q.cacheReferences == old(q.cacheReferences) + SlotReferences(subTables)
      ensures |blocks| == |subTables| && forall k :: 0 <= k < |blocks| ==> blocks[k] == |old(q.cache)| + k
    {
      blocks := [];
      var i := 0;
      while i < |subTables|
        invariant 0 <= i <= |subTables| && |blocks| == i
        invariant forall k :: 0 <= k < i ==> blocks[k] == |old(q.cache)| + k
        invariant q.cache == old(q.cache) + SlotTables(subTables)[..i]
        invariant q.cacheReferences == old(q.cacheReferences) + SlotReferences(subTables)[..i]
      {
        var id := q.PushSubTable(subTables[i].table, subTables[i].refCount);
        blocks := blocks + [id];
        assert SlotTables(subTables)[..i + 1] == SlotTables(subTables)[..i] + [subTables[i].table];
        assert SlotReferences(subTables)[..i + 1] == SlotReferences(subTables)[..i] + [subTables[i].refCount];
        i := i + 1;
      }
      assert SlotTables(subTables)[..i] == SlotTables(subTables);
      assert SlotReferences(subTables)[..i] == SlotReferences(subTables);
    }

    /** One donated list of `Export`: a new query list for the query's cache
      * copy, then one task per donated reference. */
    method ExportDonation_(metric: (SubTableState, SubTableState) -> nat, sourceRank: int, q: TaskQueue,
                           d: DonatedTask, ghost cache0: seq<SubTableState>, blocks: seq<int>)
      requires DonationValid(d, |subTables|)
      requires q.cache == cache0 + SlotTables(subTables)
      requires |blocks| == |subTables| && forall k :: 0 <= k < |blocks| ==> blocks[k] == |cache0| + k
      modifies q`queues
      ensures q.queues == old(q.queues) + [QueryTasks(subTables[d.query].table, DonationTasks(metric, subTables, d), sourceRank)]
    {
      var querySubTableInCache := q.FindSubTable(blocks[d.query]);
      var newPosition := q.PushNewQueue(sourceRank, querySubTableInCache);
      ghost var tasks := DonationTasks(metric, subTables, d);
      var j := 0;
      while j < |d.references|
        invariant 0 <= j <= |d.references|
        invariant newPosition == |old(q.queues)|
        invariant q.queues == old(q.queues) + [QueryTasks(subTables[d.query].table, tasks[..j], sourceRank)]
      {
        var referenceSubTableInCache := q.FindSubTable(blocks[d.references[j]]);
        q.PushTask(metric, newPosition, referenceSubTableInCache);
        assert tasks[..j + 1] == tasks[..j] + [tasks[j]];
        j := j + 1;
      }
      assert tasks[..j] == tasks;
    }

    /** `ReleaseCache`: hands back, for every slot in order, its reference
      * count on the cache block its subtable came from. */
    method ReleaseCache()
      requires queue != null
      modifies queue`released
      ensures queue.released == old(queue.released) + CacheReleases(subTables)
    {
      var i := 0;
      while i < |subTables|
        invariant 0 <= i <= |subTables|
        invariant queue.released == old(queue.released) + CacheReleases(subTables)[..i]
      {
        queue.ReleaseCache(subTables[i].table.cacheBlockId, subTables[i].refCount);
        assert CacheReleases(subTables)[..i + 1] == CacheReleases(subTables)[..i] + [CacheReleases(subTables)[i]];
        i := i + 1;
      }
      assert CacheReleases(subTables)[..i] == CacheReleases(subTables);
    }

    /** `save`: writes the slot count and, when there is at least one slot,
      * every subtable with its reference count and then the donated lists.
      * Saving a subtable appends the start node's range to an alias's point
      * ranges, so the slots change as `SavedSlots` says. */
    method Save() returns (ws: seq<int>)
      requires StartNodes(subTables)
      modifies this`subTables
      ensures ws == EncodeTaskList(old(subTables), donatedTaskList)
      ensures subTables == SavedSlots(old(subTables))
    {
      var numSubtables := |subTables|;
      ws := [numSubtables];
      if numSubtables > 0 {
        var slotImages := SaveSlots_();
        var donatedImage := SaveDonated_();
        ws := ws + slotImages + [|donatedTaskList|] + donatedImage;
      } else {
        assert subTables == SavedSlots(old(subTables));
      }
    }

    /** The slot half of `save`: every subtable, then its reference count. */
    method SaveSlots_() returns (ws: seq<int>)
      requires StartNodes(subTables)
      modifies this`subTables
      ensures ws == EncodeSlots(old(subTables))
      ensures subTables == SavedSlots(old(subTables))
    {
      ws, subTables := SaveSlotList(subTables);
    }

    /** The donated-list half of `save`: each list as query position,
      * length and reference positions. */
    method SaveDonated_() returns (ws: seq<int>)
      ensures ws == EncodeDonated(donatedTaskList)
    {
      ws := [];
      var j := 0;
      while j < |donatedTaskList|
        invariant 0 <= j <= |donatedTaskList|
        invariant ws == EncodeDonated(donatedTaskList[..j])
      {
        var d := donatedTaskList[j];
        EncodeDonatedAppend(donatedTaskList[..j], d);
        assert donatedTaskList[..j + 1] == donatedTaskList[..j] + [d];
        ghost var ws1 := ws;
        ws := ws + [d.query, |d.references|];
        var k := 0;
        while k < |d.references|
          invariant 0 <= k <= |d.references|
          invariant ws == ws1 + [d.query, |d.references|] + d.references[..k]
        {
          ws := ws + [d.references[k]];
          assert d.references[..k + 1] == d.references[..k] + [d.references[k]];
          k := k + 1;
        }
        assert d.references[..k] == d.references;
        j := j + 1;
      }
      assert donatedTaskList[..j] == donatedTaskList;
    }

    /** `load`: reads the slot count; when it is positive, reads that many
      * subtables (each into a new owning handle whose cache block id is its
      * position) with their reference counts, then the donated lists. A
      * count that is not positive loads nothing. The position map and the
      * query marks are not rebuilt. */
    method Load(ws: seq<int>) returns (ok: bool)
      modifies this`subTables, this`donatedTaskList
      ensures ok <==> ParseTaskList(ws).Some?
      ensures ok && ParseTaskList(ws).value.Some? ==>
        subTables == ParseTaskList(ws).value.value.0 && donatedTaskList == ParseTaskList(ws).value.value.1
      ensures !(ok && ParseTaskList(ws).value.Some?) ==>
        subTables == old(subTables) && donatedTaskList == old(donatedTaskList)
    {
      if |ws| < 1 {
        return false;
      }
      var numSubtables := ws[0];
      if numSubtables <= 0 {
        return true;
      }
      var slots := LoadSlots_(ws[1..], numSubtables);
      if slots.None? {
        return false;
      }
      var ws1 := slots.value.1;
      if |ws1| < 1 || ws1[0] < 0 {
        return false;
      }
      var donated := LoadDonated_(ws1[1..], ws1[0]);
      if donated.None? {
        return false;
      }
      subTables := slots.value.0;
      donatedTaskList := donated.value.0;
      return true;
    }

    /** The slot half of `load`: `n` subtables, the i-th loaded into a new
      * handle initialised as the owner of cache block i, each followed by
      * its reference count. */
    method LoadSlots_(ws: seq<int>, n: nat) returns (r: Option<(seq<Slot>, seq<int>)>)
      ensures r == ParseSlots(ws, 0, n)
    {
      var slots: seq<Slot> := [];
      var rest := ws;
      var i := 0;
      PrependNil(ParseSlots(ws, 0, n));
      while i < n
        invariant 0 <= i <= n
        invariant ParseSlots(ws, 0, n) == Prepend(slots, ParseSlots(rest, i, n - i))
      {
        var loaded := LoadSlot_(rest, i);
        if loaded.None? {
          return None;
        }
        var slot := loaded.value.0;
        assert ParseSlots(rest, i, n - i) == Prepend([slot], ParseSlots(loaded.value.1, i + 1, n - i - 1));
        PrependPrepend(slots, [slot], ParseSlots(loaded.value.1, i + 1, n - i - 1));
        slots := slots + [slot];
        rest := loaded.value.1;
        i := i + 1;
      }
      assert ParseSlots(rest, i, 0) == Some(([], rest));
      assert slots + [] == slots;
      return Some((slots, rest));
    }

    /** One slot of `load`: a new handle owning cache block `cacheBlockId`
      * loads a subtable, and the reference count follows it. */
    method LoadSlot_(ws: seq<int>, cacheBlockId: int) returns (r: Option<(Slot, seq<int>)>)
      ensures r.None? <==> ParseImage(ws).None? || |ParseImage(ws).value.1| < 1
      ensures r.Some? ==>
        var ws1 := ParseImage(ws).value.1;
        r.value == (Slot(LoadedState(cacheBlockId, ParseImage(ws).value.0), false, ws1[0]), ws1[1..])
    {
      var t := new SubTable();
      t.InitOwned(cacheBlockId, false);
      var afterTable := t.Load(ws);
      if afterTable.None? || |afterTable.value| < 1 {
        return None;
      }
      assert t.State() == LoadedState(cacheBlockId, ParseImage(ws).value.0);
      return Some((Slot(t.State(), false, afterTable.value[0]), afterTable.value[1..]));
    }

    /** The donated-list half of `load`: `n` lists, each a query position, a
      * length and that many reference positions. */
    method LoadDonated_(ws: seq<int>, n: nat) returns (r: Option<(seq<DonatedTask>, seq<int>)>)
      ensures r == ParseDonated(ws, n)
    {
      var donated: seq<DonatedTask> := [];
      var rest := ws;
      var i := 0;
      PrependNil(ParseDonated(ws, n));
      while i < n
        invariant 0 <= i <= n
        invariant ParseDonated(ws, n) == Prepend(donated, ParseDonated(rest, n - i))
      {
        if |rest| < 2 || rest[1] < 0 || |rest| - 2 < rest[1] {
          return None;
        }
        var sublistSize := rest[1];
        var references: seq<int> := [];
        var k := 0;
        while k < sublistSize
          invariant 0 <= k <= sublistSize && references == rest[2 .. 2 + k]
        {
          assert rest[2 .. 2 + k + 1] == rest[2 .. 2 + k] + [rest[2 + k]];
          references := references + [rest[2 + k]];
          k := k + 1;
        }
        var d := DonatedTask(rest[0], references);
        assert ParseDonated(rest, n - i) == Prepend([d], ParseDonated(rest[2 + sublistSize..], n - i - 1));
        PrependPrepend(donated, [d], ParseDonated(rest[2 + sublistSize..], n - i - 1));
        donated := donated + [d];
        rest := rest[2 + sublistSize..];
        i := i + 1;
      }
      assert ParseDonated(rest, 0) == Some(([], rest));
      assert donated + [] == donated;
      return Some((donated, rest));
    }
  }
}
