/** Sorted linked lists of point indices, as the CART training set keeps
  * them per ordinal feature (cart/training_set.h): the linked-list merge
  * sort of `SortOrdinalFeature_` and the back links `Init` adds. */
module SortedLists {
  import opened Wrappers

  /** One feature value of one point; `None` is NaN, a missing value. */
  type Value = Option<int>

  // ---------------------------------------------------------------------
  // Linked lists of point indices
  // ---------------------------------------------------------------------

  predicate Distinct(xs: seq<int>)
  {
    forall a, b :: 0 <= a < b < |xs| ==> xs[a] != xs[b]
  }

  /** Following `o` from `head` visits `xs` in order and stops at -1; an
    * empty list has a negative head. */
  predicate Linked(o: seq<int>, head: int, xs: seq<int>)
  {
    (forall k :: 0 <= k < |xs| ==> 0 <= xs[k] < |o|) &&
    (xs == [] <==> head < 0) &&
    (xs != [] ==> head == xs[0] && o[xs[|xs| - 1]] == -1) &&
    (forall k :: 0 <= k < |xs| - 1 ==> o[xs[k]] == xs[k + 1])
  }

  /** Every index of `xs` has a present value. */
  predicate AllPresent(vals: seq<Value>, xs: seq<int>)
  {
    forall k :: 0 <= k < |xs| ==> 0 <= xs[k] < |vals| && vals[xs[k]].Some?
  }

  /** The value of point `x` as a sort key (0 where there is none). */
  function Key(vals: seq<Value>, x: int): int
  {
    if 0 <= x < |vals| && vals[x].Some? then vals[x].value else 0
  }

  /** The values along `xs` never decrease. */
  predicate Ascending(vals: seq<Value>, xs: seq<int>)
  {
    forall k :: 0 <= k < |xs| - 1 ==> Key(vals, xs[k]) <= Key(vals, xs[k + 1])
  }

  /** `xs` holds exactly the indices of [start, stop) whose value is present. */
  predicate Covers(vals: seq<Value>, xs: seq<int>, start: int, stop: int)
    requires 0 <= start && stop <= |vals|
  {
    (forall k :: 0 <= k < |xs| ==> start <= xs[k] < stop && vals[xs[k]].Some?) &&
    (forall x :: start <= x < stop && vals[x].Some? ==> x in xs)
  }

  lemma DistinctConcat(a: seq<int>, b: seq<int>)
    requires Distinct(a) && Distinct(b)
    requires forall k :: 0 <= k < |a| ==> a[k] !in b
    ensures Distinct(a + b)
  {
    forall i, j | 0 <= i < j < |a + b|
      ensures (a + b)[i] != (a + b)[j]
    {
      if j >= |a| && i < |a| {
        assert (a + b)[j] == b[j - |a|];
      }
    }
  }

  lemma AscendingConcat(vals: seq<Value>, a: seq<int>, b: seq<int>)
    requires AllPresent(vals, a) && AllPresent(vals, b)
    requires Ascending(vals, a) && Ascending(vals, b)
    requires a != [] && b != [] ==> Key(vals, a[|a| - 1]) <= Key(vals, b[0])
    ensures AllPresent(vals, a + b) && Ascending(vals, a + b)
  {
    var c := a + b;
    forall k | 0 <= k < |c|
      ensures 0 <= c[k] < |vals| && vals[c[k]].Some?
    {
      if k >= |a| {
        assert c[k] == b[k - |a|];
      }
    }
    forall k | 0 <= k < |c| - 1
      ensures Key(vals, c[k]) <= Key(vals, c[k + 1])
    {
      if k + 1 < |a| {
        assert c[k] == a[k] && c[k + 1] == a[k + 1];
      } else if k + 1 == |a| {
        assert c[k] == a[k] && c[k + 1] == b[0];
      } else {
        assert c[k] == b[k - |a|] && c[k + 1] == b[k - |a| + 1];
      }
    }
  }

  lemma LinkedSuffix(o: seq<int>, head: int, xs: seq<int>, j: int)
    requires Linked(o, head, xs) && 0 <= j < |xs|
    ensures Linked(o, xs[j], xs[j..])
  {
    var t := xs[j..];
    assert forall k :: 0 <= k < |t| ==> t[k] == xs[j + k];
  }

  /** A list whose last link leads to the head of another list continues
    * into it. */
  lemma LinkedJoin(o: seq<int>, a: seq<int>, b: seq<int>)
    requires a != [] && b != [] && (forall k :: 0 <= k < |a| ==> 0 <= a[k] < |o|)
    requires forall k :: 0 <= k < |a| - 1 ==> o[a[k]] == a[k + 1]
    requires o[a[|a| - 1]] == b[0] && Linked(o, b[0], b)
    ensures Linked(o, a[0], a + b)
  {
    var c := a + b;
    forall k | 0 <= k < |c| - 1
      ensures o[c[k]] == c[k + 1]
    {
      if k + 1 < |a| {
        assert c[k] == a[k] && c[k + 1] == a[k + 1];
      } else if k + 1 == |a| {
        assert c[k] == a[k] && c[k + 1] == b[0];
      } else {
        assert c[k] == b[k - |a|] && c[k + 1] == b[k - |a| + 1];
      }
    }
    assert c[|c| - 1] == b[|b| - 1];
  }

  /** Writes that touch none of the indices on a list keep it linked. */
  lemma LinkedFrame(o1: seq<int>, o2: seq<int>, head: int, xs: seq<int>)
    requires Linked(o1, head, xs) && |o1| == |o2|
    requires forall k :: 0 <= k < |xs| ==> o2[xs[k]] == o1[xs[k]]
    ensures Linked(o2, head, xs)
  {
  }

  // ---------------------------------------------------------------------
  // SortOrdinalFeature_: the merge step
  // ---------------------------------------------------------------------

  /** A non-empty list linked by `o`, without repeats, of present values in
    * ascending order. */
  predicate SortedList(vals: seq<Value>, o: seq<int>, xs: seq<int>)
  {
    xs != [] && Linked(o, xs[0], xs) && Distinct(xs) && AllPresent(vals, xs) && Ascending(vals, xs)
  }

  /** Two sorted lists over disjoint indices, as the merge takes them. */
  predicate MergeInputs(vals: seq<Value>, o: seq<int>, ys: seq<int>, zs: seq<int>)
  {
    |o| == |vals| && SortedList(vals, o, ys) && SortedList(vals, o, zs) &&
    (forall k :: 0 <= k < |ys| ==> ys[k] !in zs) && (forall k :: 0 <= k < |zs| ==> zs[k] !in ys)
  }

  /** Midway through a merge of `ys` and `zs`: `out` holds the first `yi`
    * of `ys` and the first `zi` of `zs`, linked by `o2` in ascending order,
    * its last value no greater than the next of either list, and `o2`
    * differs from `o` only at indices of `out`. */
  ghost predicate MergeState(vals: seq<Value>, o: seq<int>, o2: seq<int>, out: seq<int>,
                             ys: seq<int>, yi: int, zs: seq<int>, zi: int)
  {
    |o| == |vals| == |o2| && 0 <= yi <= |ys| && 0 <= zi <= |zs| && out != [] &&
    (forall x :: x in out <==> x in ys[..yi] || x in zs[..zi]) &&
    Distinct(out) && AllPresent(vals, out) && Ascending(vals, out) &&
    (forall k :: 0 <= k < |out| - 1 ==> o2[out[k]] == out[k + 1]) &&
    (forall x :: 0 <= x < |o| && x !in out ==> o2[x] == o[x]) &&
    (yi < |ys| ==> Key(vals, out[|out| - 1]) <= Key(vals, ys[yi])) &&
    (zi < |zs| ==> Key(vals, out[|out| - 1]) <= Key(vals, zs[zi]))
  }

  /** The merge of `SortOrdinalFeature_`: splices the two sorted lists
    * starting at `leftStart` and `rightStart` into one, by rewriting only
    * the links of indices on them. The first pick goes to the right list on
    * a tie; later picks go to the left list on a tie. */
  method Merge(vals: seq<Value>, o: seq<int>, leftStart: int, rightStart: int,
               ghost lxs: seq<int>, ghost rxs: seq<int>)
      returns (o2: seq<int>, mergeStart: int, ghost xs: seq<int>)
    requires |o| == |vals|
    requires Linked(o, leftStart, lxs) && Linked(o, rightStart, rxs) && lxs != [] && rxs != []
    requires Distinct(lxs) && Distinct(rxs) && forall k :: 0 <= k < |lxs| ==> lxs[k] !in rxs
    requires AllPresent(vals, lxs) && AllPresent(vals, rxs)
    requires Ascending(vals, lxs) && Ascending(vals, rxs)
    ensures |o2| == |o| && Linked(o2, mergeStart, xs) && Distinct(xs)
    ensures AllPresent(vals, xs) && Ascending(vals, xs)
    ensures forall x :: x in xs <==> x in lxs || x in rxs
    ensures forall x :: 0 <= x < |o| && x !in lxs && x !in rxs ==> o2[x] == o[x]
  {
    var left, right;
    ghost var li, ri;
    o2 := o;
    MergeStart(vals, o, lxs, rxs);
    if Key(vals, leftStart) < Key(vals, rightStart) {
      mergeStart := leftStart;
      left := o[leftStart];
      right := rightStart;
      li, ri := 1, 0;
      MergeFirst(vals, o, lxs, rxs);
    } else {
      mergeStart := rightStart;
      right := o[rightStart];
      left := leftStart;
      li, ri := 0, 1;
      MergeFirst(vals, o, rxs, lxs);
    }
    var current := mergeStart;
    ghost var out := [mergeStart];
    while left >= 0 && right >= 0
      invariant MergeState(vals, o, o2, out, lxs, li, rxs, ri) && (li < |lxs| || ri < |rxs|)
      invariant left == (if li < |lxs| then lxs[li] else -1)
      invariant right == (if ri < |rxs| then rxs[ri] else -1)
      invariant out[0] == mergeStart && current == out[|out| - 1]
      decreases |lxs| - li + |rxs| - ri
    {
      if Key(vals, right) < Key(vals, left) {
        MergePick(vals, o, o2, out, rxs, ri, lxs, li);
        o2 := o2[current := right];
        current := right;
        right := o2[right];
        out := out + [current];
        ri := ri + 1;
      } else {
        MergePick(vals, o, o2, out, lxs, li, rxs, ri);
        o2 := o2[current := left];
        current := left;
        left := o2[left];
        out := out + [current];
        li := li + 1;
      }
    }
    ghost var o1 := o2;
    if left >= 0 {
      o2 := o2[current := left];
      xs := out + lxs[li..];
      MergeFinish(vals, o, o1, o2, out, lxs, li, rxs, ri, xs);
    } else {
      o2 := o2[current := right];
      xs := out + rxs[ri..];
      MergeFinish(vals, o, o1, o2, out, rxs, ri, lxs, li, xs);
    }
  }

  lemma MergeStart(vals: seq<Value>, o: seq<int>, lxs: seq<int>, rxs: seq<int>)
    requires |o| == |vals| && lxs != [] && rxs != []
    requires Linked(o, lxs[0], lxs) && Linked(o, rxs[0], rxs)
    requires Distinct(lxs) && Distinct(rxs) && forall k :: 0 <= k < |lxs| ==> lxs[k] !in rxs
    requires AllPresent(vals, lxs) && AllPresent(vals, rxs)
    requires Ascending(vals, lxs) && Ascending(vals, rxs)
    ensures MergeInputs(vals, o, lxs, rxs) && MergeInputs(vals, o, rxs, lxs)
  {
  }

  /** The first pick of the merge: the head of `ys`, no greater than the
    * head of `zs`. */
  lemma MergeFirst(vals: seq<Value>, o: seq<int>, ys: seq<int>, zs: seq<int>)
    requires MergeInputs(vals, o, ys, zs)
    requires Key(vals, ys[0]) <= Key(vals, zs[0])
    ensures MergeState(vals, o, o, [ys[0]], ys, 1, zs, 0) && MergeState(vals, o, o, [ys[0]], zs, 0, ys, 1)
    ensures o[ys[0]] == if 1 < |ys| then ys[1] else -1
  {
    assert ys[..1] == [ys[0]];
  }

  /** One pick of the merge: the next of `ys`, no greater than the next of
    * `zs`, is linked after the last pick. */
  lemma MergePick(vals: seq<Value>, o: seq<int>, o2: seq<int>, out: seq<int>,
                  ys: seq<int>, yi: int, zs: seq<int>, zi: int)
    requires MergeInputs(vals, o, ys, zs) && MergeState(vals, o, o2, out, ys, yi, zs, zi) && yi < |ys|
    requires zi < |zs| ==> Key(vals, ys[yi]) <= Key(vals, zs[zi])
    ensures MergeState(vals, o, o2[out[|out| - 1] := ys[yi]], out + [ys[yi]], ys, yi + 1, zs, zi)
    ensures MergeState(vals, o, o2[out[|out| - 1] := ys[yi]], out + [ys[yi]], zs, zi, ys, yi + 1)
    ensures o2[out[|out| - 1] := ys[yi]][ys[yi]] == if yi + 1 < |ys| then ys[yi + 1] else -1
  {
    var x := ys[yi];
    var o3 := o2[out[|out| - 1] := x];
    var out2 := out + [x];
    assert ys[..yi + 1] == ys[..yi] + [x];
    assert forall m :: 0 <= m < yi ==> ys[..yi][m] == ys[m] != x;
    assert forall m :: 0 <= m < zi ==> zs[..zi][m] == zs[m];
    assert x !in out;
    DistinctConcat(out, [x]);
    AscendingConcat(vals, out, [x]);
    assert forall k :: 0 <= k < |out2| - 1 ==> o3[out2[k]] == out2[k + 1];
    if yi + 1 < |ys| {
      assert Key(vals, ys[yi]) <= Key(vals, ys[yi + 1]);
    }
  }

  /** The end of the merge: the picked prefix `out` continues into what is
    * left of the list `ys` (the other list `zs` being used up). */
  lemma MergeFinish(vals: seq<Value>, o: seq<int>, o2: seq<int>, o3: seq<int>, out: seq<int>,
                    ys: seq<int>, yi: int, zs: seq<int>, zi: int, xs: seq<int>)
    requires MergeInputs(vals, o, ys, zs) && MergeState(vals, o, o2, out, ys, yi, zs, zi) && yi < |ys| && zi == |zs|
    requires o3 == o2[out[|out| - 1] := ys[yi]] && xs == out + ys[yi..]
    ensures |o3| == |o| && Linked(o3, out[0], xs)
    ensures Distinct(xs) && AllPresent(vals, xs) && Ascending(vals, xs)
    ensures forall x :: x in xs <==> x in ys || x in zs
    ensures forall x :: 0 <= x < |o| && x !in ys && x !in zs ==> o3[x] == o[x]
  {
    var tail := ys[yi..];
    MergeTailFresh(vals, o, o2, out, ys, yi, zs, zi);
    LinkedSuffix(o, ys[0], ys, yi);
    LinkedFrame(o, o3, ys[yi], tail);
    LinkedJoin(o3, out, tail);
    DistinctConcat(out, tail);
    AscendingConcat(vals, out, tail);
    MergeCovers(out, ys, yi, zs, zi);
  }

  /** What is left of `ys` is not yet picked. */
  lemma MergeTailFresh(vals: seq<Value>, o: seq<int>, o2: seq<int>, out: seq<int>,
                       ys: seq<int>, yi: int, zs: seq<int>, zi: int)
    requires MergeInputs(vals, o, ys, zs) && MergeState(vals, o, o2, out, ys, yi, zs, zi) && yi < |ys|
    ensures forall k :: 0 <= k < |out| ==> out[k] !in ys[yi..]
    ensures forall k :: yi <= k < |ys| ==> ys[k] !in out
    ensures Distinct(ys[yi..]) && AllPresent(vals, ys[yi..]) && Ascending(vals, ys[yi..])
  {
    var tail := ys[yi..];
    assert forall k :: 0 <= k < |tail| ==> tail[k] == ys[yi + k];
    forall k | yi <= k < |ys|
      ensures ys[k] !in out
    {
      assert forall m :: 0 <= m < yi ==> ys[..yi][m] == ys[m] != ys[k];
      assert forall m :: 0 <= m < zi ==> zs[..zi][m] == zs[m];
    }
  }

  lemma MergeCovers(out: seq<int>, ys: seq<int>, yi: int, zs: seq<int>, zi: int)
    requires 0 <= yi <= |ys| && zi == |zs|
    requires forall x :: x in out <==> x in ys[..yi] || x in zs[..zi]
    ensures forall x :: x in out + ys[yi..] <==> x in ys || x in zs
  {
    assert zs[..zi] == zs;
    assert ys == ys[..yi] + ys[yi..];
  }

  /** Lists of the two halves of a range join into a list of the whole. */
  lemma CoversJoin(vals: seq<Value>, lxs: seq<int>, rxs: seq<int>, xs: seq<int>, start: int, halfway: int, stop: int)
    requires 0 <= start <= halfway <= stop <= |vals|
    requires Covers(vals, lxs, start, halfway) && Covers(vals, rxs, halfway, stop)
    requires forall x :: x in xs <==> x in lxs || x in rxs
    ensures Covers(vals, xs, start, stop)
  {
    forall k | 0 <= k < |xs|
      ensures start <= xs[k] < stop && vals[xs[k]].Some?
    {
      assert xs[k] in xs;
    }
  }

  lemma CoversHalves(vals: seq<Value>, lxs: seq<int>, rxs: seq<int>, start: int, halfway: int, stop: int)
    requires 0 <= start <= halfway <= stop <= |vals|
    requires Covers(vals, lxs, start, halfway) && Covers(vals, rxs, halfway, stop)
    ensures forall k :: 0 <= k < |lxs| ==> lxs[k] !in rxs
    ensures lxs == [] ==> Covers(vals, rxs, start, stop)
    ensures rxs == [] ==> Covers(vals, lxs, start, stop)
  {
  }

  // ---------------------------------------------------------------------
  // The training set
  // ---------------------------------------------------------------------

  /** The recursion of `SortOrdinalFeature_` on one feature's successor
    * array `o`: threads the points of [start, stop) whose value is present
    * into a list in non-decreasing value order, rewriting only their links,
    * and marks the missing ones -2. A one-point range answers its own
    * index, or -2 when its value is missing; a longer range with no present
    * value answers -1. */
  method SortRange(vals: seq<Value>, o: seq<int>, start: int, stop: int)
      returns (o2: seq<int>, head: int, ghost xs: seq<int>)
    requires |o| == |vals| && 0 <= start < stop <= |vals|
    ensures |o2| == |o| && forall k :: 0 <= k < |o| && !(start <= k < stop) ==> o2[k] == o[k]
    ensures Linked(o2, head, xs) && Distinct(xs)
    ensures Covers(vals, xs, start, stop) && Ascending(vals, xs)
    ensures forall k :: start <= k < stop && vals[k].None? ==> o2[k] == -2
    ensures stop - start == 1 ==> head == if vals[start].Some? then start else -2
    ensures stop - start > 1 && xs == [] ==> head == -1
    decreases stop - start
  {
    if stop - start == 1 {
      if vals[start].Some? {
        return o[start := -1], start, [start];
      } else {
        return o[start := -2], -2, [];
      }
    }
    var halfway := (start + stop) / 2;
    var o1, leftStart, lxs := SortRange(vals, o, start, halfway);
    var rightStart;
    ghost var rxs;
    o2, rightStart, rxs := SortRange(vals, o1, halfway, stop);
    LinkedFrame(o1, o2, leftStart, lxs);
    CoversHalves(vals, lxs, rxs, start, halfway, stop);
    if leftStart >= 0 {
      if rightStart >= 0 {
        o2, head, xs := Merge(vals, o2, leftStart, rightStart, lxs, rxs);
        CoversJoin(vals, lxs, rxs, xs, start, halfway, stop);
      } else {
        head, xs := leftStart, lxs;
      }
    } else {
      if rightStart >= 0 {
        head, xs := rightStart, rxs;
      } else {
        head, xs := -1, [];
      }
    }
  }

  // ---------------------------------------------------------------------
  // Back links (the loop in `Init`)
  // ---------------------------------------------------------------------

  /** `b` holds the back links of the list `xs`: -1 at its head, and the
    * previous index at every later entry. */
  predicate BackLinked(b: seq<int>, xs: seq<int>)
  {
    (forall k :: 0 <= k < |xs| ==> 0 <= xs[k] < |b|) &&
    (forall k {:trigger b[xs[k]]} :: 0 <= k < |xs| ==> b[xs[k]] == Prev(xs, k))
  }

  /** The entry before position `k` of `xs`, -1 before the first. */
  function Prev(xs: seq<int>, k: int): int
    requires 0 <= k < |xs|
  {
    if k == 0 then -1 else xs[k - 1]
  }

  /** `b` with the back links of the first `n` entries of `xs` written, in
    * list order. */
  function BackLinksUpTo(b: seq<int>, xs: seq<int>, n: int): (r: seq<int>)
    requires 0 <= n <= |xs| && forall k :: 0 <= k < |xs| ==> 0 <= xs[k] < |b|
    ensures |r| == |b|
  {
    if n == 0 then b
    else BackLinksUpTo(b, xs, n - 1)[xs[n - 1] := Prev(xs, n - 1)]
  }

  /** On a list without repeats, writing the first `n` back links sets
    * the back link of each of those entries. */
  lemma {:induction false} BackLinksUpToAt(b: seq<int>, xs: seq<int>, n: int, k: int)
    requires 0 <= k < n <= |xs| && (forall j :: 0 <= j < |xs| ==> 0 <= xs[j] < |b|) && Distinct(xs)
    ensures BackLinksUpTo(b, xs, n)[xs[k]] == Prev(xs, k)
  {
    if k < n - 1 {
      assert xs[k] != xs[n - 1];
      BackLinksUpToAt(b, xs, n - 1, k);
    }
  }

  /** Writing the first `n` back links leaves every index off those entries
    * as it was. */
  lemma {:induction false} BackLinksUpToElsewhere(b: seq<int>, xs: seq<int>, n: int, x: int)
    requires 0 <= n <= |xs| && (forall k :: 0 <= k < |xs| ==> 0 <= xs[k] < |b|)
    requires 0 <= x < |b| && forall k :: 0 <= k < n ==> xs[k] != x
    ensures BackLinksUpTo(b, xs, n)[x] == b[x]
  {
    if n > 0 {
      BackLinksUpToElsewhere(b, xs, n - 1, x);
    }
  }

  /** Writing all the back links of a list gives its back links. */
  lemma BackLinksComplete(b: seq<int>, xs: seq<int>)
    requires (forall k :: 0 <= k < |xs| ==> 0 <= xs[k] < |b|) && Distinct(xs)
    ensures BackLinked(BackLinksUpTo(b, xs, |xs|), xs)
    ensures forall x :: 0 <= x < |b| && x !in xs ==> BackLinksUpTo(b, xs, |xs|)[x] == b[x]
  {
    var r := BackLinksUpTo(b, xs, |xs|);
    forall k | 0 <= k < |xs|
      ensures r[xs[k]] == Prev(xs, k)
    {
      BackLinksUpToAt(b, xs, |xs|, k);
    }
    forall x | 0 <= x < |b| && x !in xs
      ensures r[x] == b[x]
    {
      BackLinksUpToElsewhere(b, xs, |xs|, x);
    }
  }

  /** How far the back-link loop of `Init` gets along `xs` as written: it
    * stops at the first later entry that is point 0. */
  function ReachedAsWritten(xs: seq<int>): (n: int)
    requires xs != []
    ensures 1 <= n <= |xs|
    ensures forall k :: 1 <= k < n ==> xs[k] != 0
    ensures n < |xs| ==> xs[n] == 0
    decreases |xs|
  {
    if |xs| == 1 then 1
    else if xs[|xs| - 1] != 0 && ReachedAsWritten(xs[..|xs| - 1]) == |xs| - 1 then |xs|
    else if ReachedAsWritten(xs[..|xs| - 1]) < |xs| - 1 then ReachedAsWritten(xs[..|xs| - 1])
    else |xs| - 1
  }

  /** The back-link loop of `Init` as written (`while (j_cur > 0)`): it
    * reads `order[head]` without checking the head, and stops at point 0
    * as if it were the end of the list. */
  method BackLinksAsWritten(o: seq<int>, b: seq<int>, head: int, ghost xs: seq<int>) returns (b2: seq<int>)
    requires |b| == |o| && 0 <= head < |o| && Linked(o, head, xs) && Distinct(xs)
    ensures b2 == BackLinksUpTo(b, xs, ReachedAsWritten(xs))
  {
    var jOld := head;
    var jCur := o[head];
    b2 := b[jOld := -1];
    ghost var n := 1;
    while jCur > 0
      invariant 1 <= n <= ReachedAsWritten(xs) && jOld == xs[n - 1]
      invariant jCur == if n < |xs| then xs[n] else -1
      invariant b2 == BackLinksUpTo(b, xs, n)
      decreases |xs| - n
    {
      b2 := b2[jCur := jOld];
      jOld := jCur;
      jCur := o[jCur];
      n := n + 1;
    }
  }

  /** The back-link loop of `Init`, corrected: it writes the back links of
    * the whole list, and none when the feature has no present value. */
  method BackLinks(o: seq<int>, b: seq<int>, head: int, ghost xs: seq<int>) returns (b2: seq<int>)
    requires |b| == |o| && Linked(o, head, xs) && Distinct(xs)
    ensures |b2| == |b| && BackLinked(b2, xs)
    ensures forall x :: 0 <= x < |b| && x !in xs ==> b2[x] == b[x]
  {
    if head < 0 {
      return b;
    }
    var jOld := head;
    var jCur := o[head];
    b2 := b[jOld := -1];
    ghost var n := 1;
    while jCur >= 0
      invariant 1 <= n <= |xs| && jOld == xs[n - 1]
      invariant jCur == if n < |xs| then xs[n] else -1
      invariant b2 == BackLinksUpTo(b, xs, n)
      decreases |xs| - n
    {
      b2 := b2[jCur := jOld];
      jOld := jCur;
      jCur := o[jCur];
      n := n + 1;
    }
    BackLinksComplete(b, xs);
  }

  /** A feature whose list runs 1, 0 (point 1 holds the smaller value): the
    * loop as written stops at point 0 and leaves its back link at -2
    * instead of 1. */
  lemma BackLinksAsWrittenMissesPointZero()
    ensures Linked([-1, 0], 1, [1, 0]) && Distinct([1, 0])
    ensures BackLinksUpTo([-2, -2], [1, 0], ReachedAsWritten([1, 0])) == [-2, -1]
    ensures !BackLinked([-2, -1], [1, 0]) && BackLinked(BackLinksUpTo([-2, -2], [1, 0], 2), [1, 0])
  {
    assert ReachedAsWritten([1, 0]) == 1 by {
      assert [1, 0][..1] == [1];
    }
    assert BackLinksUpTo([-2, -2], [1, 0], 2) == [1, -1];
    assert [-2, -1][[1, 0][1]] != Prev([1, 0], 1);
  }

  /** A feature with no present value has an empty list, so
    * `SortOrdinalFeature_` answers a negative head, which the loop as
    * written uses as an index. */
  lemma AllMissingHeadIsNegative(vals: seq<Value>, o: seq<int>, head: int, xs: seq<int>)
    requires forall k :: 0 <= k < |vals| ==> vals[k].None?
    requires Linked(o, head, xs) && Covers(vals, xs, 0, |vals|)
    ensures xs == [] && head < 0
  {
  }

  /** One ordinal feature's index over points [0, |vals|): `o` links its
    * list `xs` from `head` (every present point once, values ascending),
    * `b` holds the list's back links, and a point with a missing value is
    * off the list, marked -2 in both. */
  ghost predicate FeatureIndexed(vals: seq<Value>, o: seq<int>, b: seq<int>, head: int, xs: seq<int>)
  {
    |o| == |vals| && |b| == |vals| &&
    Linked(o, head, xs) && BackLinked(b, xs) && Distinct(xs) &&
    Covers(vals, xs, 0, |vals|) && Ascending(vals, xs) &&
    forall k :: 0 <= k < |vals| && vals[k].None? ==> o[k] == -2 && b[k] == -2
  }

  /** A sorted list of a whole feature with its back links written over
    * an all -2 array is the feature's index. */
  lemma FeatureIndexedIntro(vals: seq<Value>, o: seq<int>, b0: seq<int>, b: seq<int>, head: int, xs: seq<int>)
    requires |o| == |vals| == |b0| == |b| && forall k :: 0 <= k < |b0| ==> b0[k] == -2
    requires Linked(o, head, xs) && Distinct(xs) && Covers(vals, xs, 0, |vals|) && Ascending(vals, xs)
    requires forall k :: 0 <= k < |vals| && vals[k].None? ==> o[k] == -2
    requires BackLinked(b, xs) && forall x :: 0 <= x < |b0| && x !in xs ==> b[x] == b0[x]
    ensures FeatureIndexed(vals, o, b, head, xs)
  {
    forall k | 0 <= k < |vals| && vals[k].None?
      ensures b[k] == -2
    {
      assert k !in xs;
    }
  }

}
