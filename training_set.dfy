/** The index structures of the CART training set (cart/training_set.h):
  * per ordinal feature, a singly linked list of point indices in value order
  * (`order`) with its back links (`backOrder`), built by a linked-list merge
  * sort, and the partition of a node's points into a left and a right block
  * that keeps every feature's lists threaded through the moved points. */
module TrainingSets {
  import opened Wrappers
  import opened SortedLists
  import opened Partitions

  class TrainingSet {
    /** The data matrix, feature by feature: `values[dim][point]`. */
    var values: seq<seq<Value>>
    /** Per feature, the successor of each point on the feature's sorted
      * list (-1 at the end, -2 for a missing value); empty for a nominal
      * feature. */
    var order: seq<seq<int>>
    /** Per feature, the predecessor of each point on that list (-1 at the
      * head, -2 off the list). */
    var backOrder: seq<seq<int>>

    /** `SortOrdinalFeature_(dim, start, stop)`: sorts the range of feature
      * `dim`'s list in place, as `SortRange` says. */
    method SortOrdinalFeature(dim: int, start: int, stop: int) returns (head: int, ghost xs: seq<int>)
      requires 0 <= dim < |values| == |order| && |order[dim]| == |values[dim]|
      requires 0 <= start < stop <= |values[dim]|
      modifies this`order
      ensures |order| == |old(order)| && order == old(order)[dim := order[dim]]
      ensures |order[dim]| == |old(order[dim])|
      ensures forall k :: 0 <= k < |order[dim]| && !(start <= k < stop) ==> order[dim][k] == old(order[dim][k])
      ensures Linked(order[dim], head, xs) && Distinct(xs)
      ensures Covers(values[dim], xs, start, stop) && Ascending(values[dim], xs)
      ensures forall k :: start <= k < stop && values[dim][k].None? ==> order[dim][k] == -2
      ensures stop - start == 1 ==> head == if values[dim][start].Some? then start else -2
      ensures stop - start > 1 && xs == [] ==> head == -1
    {
      var o;
      o, head, xs := SortRange(values[dim], order[dim], start, stop);
      order := order[dim := o];
    }

    /** The ordinal branch of `Init` for feature `i`: a successor array of
      * one entry per point, back links all -2, the sort, then the back
      * links of the sorted list. */
    method IndexFeature_(i: int) returns (head: int, ghost xs: seq<int>)
      requires 0 <= i < |values| == |order| == |backOrder| && |values[i]| > 0
      modifies this`order, this`backOrder
      ensures |order| == |old(order)| && |backOrder| == |old(backOrder)|
      ensures order == old(order)[i := order[i]] && backOrder == old(backOrder)[i := backOrder[i]]
      ensures FeatureIndexed(values[i], order[i], backOrder[i], head, xs)
    {
      var vals := values[i];
      var n := |vals|;
      var unlinked := seq(n, k => -2);
      var o;
      o, head, xs := SortRange(vals, seq(n, k => 0), 0, n);
      var b := BackLinks(o, unlinked, head, xs);
      FeatureIndexedIntro(vals, o, unlinked, b, head, xs);
      order := order[i := o];
      backOrder := backOrder[i := b];
    }

    /** `Init` on an already loaded data set (feature by feature, with the
      * nominal features flagged): every ordinal feature gets its sorted
      * list, its head in `firsts` and its back links; a nominal feature gets
      * empty ones. */
    method Init(data: seq<seq<Value>>, nominal: seq<bool>) returns (firsts: seq<int>, ghost lists: seq<seq<int>>)
      requires |data| == |nominal| && forall f :: 0 <= f < |data| ==> |data[f]| == |data[0]| > 0
      modifies this
      ensures values == data && |order| == |backOrder| == |firsts| == |lists| == |data|
      ensures forall f :: 0 <= f < |data| && nominal[f] ==> order[f] == [] && backOrder[f] == [] && firsts[f] == -1
      ensures forall f :: 0 <= f < |data| && !nominal[f] ==>
        FeatureIndexed(data[f], order[f], backOrder[f], firsts[f], lists[f])
    {
      values := data;
      order := seq(|data|, f => []);
      backOrder := seq(|data|, f => []);
      firsts := [];
      lists := [];
      var i := 0;
      while i < |data|
        invariant 0 <= i <= |data| && values == data
        invariant |order| == |backOrder| == |data| && |firsts| == |lists| == i
        invariant forall f :: 0 <= f < i && nominal[f] ==> order[f] == [] && backOrder[f] == [] && firsts[f] == -1
        invariant forall f :: 0 <= f < i && !nominal[f] ==>
          FeatureIndexed(data[f], order[f], backOrder[f], firsts[f], lists[f])
      {
        var head := -1;
        ghost var xs: seq<int> := [];
        if !nominal[i] {
          head, xs := IndexFeature_(i);
        } else {
          order := order[i := []];
          backOrder := backOrder[i := []];
        }
        firsts := firsts + [head];
        lists := lists + [xs];
        i := i + 1;
      }
    }

    /** `MatrixPartition`: moves the points of [start, stop) whose `split`
      * entry is 1 to the front of the block and returns where the right
      * block begins. Every feature's values move with the points, and so
      * does `oldFromNew` when there is one; `at[k]` is the new place of the
      * point first at `start + k`. Each ordinal feature's list over the
      * block is cut in two, its left side now indexing [start, left) from
      * `firstsL` and its right side [left, stop) from `firstsR`. */
    method MatrixPartition(start: int, stop: int, oldFromNew: array?<int>, split: seq<int>,
                           firsts: seq<int>, ghost lists: seq<seq<int>>)
      returns (left: int, firstsL: seq<int>, firstsR: seq<int>, ghost at: seq<int>)
      requires |order| == |backOrder| == |firsts| == |lists|
      requires 0 <= start <= stop && forall d :: 0 <= d < |values| ==> stop <= |values[d]|
      requires |split| == stop - start && forall k :: 0 <= k < |split| ==> split[k] == 0 || split[k] == 1
      requires forall f :: 0 <= f < |order| && |order[f]| > 0 ==>
        BlockIndexed(order[f], backOrder[f], firsts[f], lists[f], start, stop)
      requires oldFromNew != null ==> stop <= oldFromNew.Length
      modifies this`values, this`order, this`backOrder, oldFromNew
      ensures start <= left <= stop && Placement(at, start, stop)
      ensures forall k :: 0 <= k < |at| ==> (at[k] < left <==> split[k] == 1)
      ensures MatrixMoved(old(values), values, at, start, stop)
      ensures oldFromNew != null ==> Moved(old(oldFromNew[..]), oldFromNew[..], at, start, stop)
      ensures |order| == |backOrder| == |firstsL| == |firstsR| == |old(order)|
      ensures forall f :: 0 <= f < |order| && |old(order)[f]| > 0 ==>
        PartitionedFeature(old(order)[f], old(backOrder)[f], order[f], backOrder[f], firstsL[f], firstsR[f],
                           lists[f], split, at, start, left, stop)
      ensures forall f :: 0 <= f < |order| && |old(order)[f]| == 0 ==>
        order[f] == old(order)[f] && backOrder[f] == old(backOrder)[f] && firstsL[f] == -1 && firstsR[f] == -1
    {
      var o, b, fl, fr := SplitLists(order, backOrder, firsts, lists, split, start, stop);
      SwapLoopStart(values, order, backOrder, lists, split, start, stop, o, b, fl, fr);
      if oldFromNew != null {
        StayMoved(oldFromNew[..], start, stop);
      }
      var vs;
      left, vs, o, b, fl, fr, at := SwapPoints(values, order, backOrder, lists, split, start, stop,
                                               values, o, b, fl, fr, oldFromNew);
      values, order, backOrder := vs, o, b;
      firstsL, firstsR := fl, fr;
    }
  }
}
