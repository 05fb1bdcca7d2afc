/** `MatrixPartition` of the CART training set (cart/training_set.h),
  * feature by feature: the split of each sorted list into a left and a
  * right list, and the relinking that follows each swap of two points. */
module Partitions {
  import opened SortedLists

  // ---------------------------------------------------------------------
  // MatrixPartition, first phase: each list split by side
  // ---------------------------------------------------------------------

  /** Every entry of `xs` lies in [start, stop). */
  predicate InBlock(xs: seq<int>, start: int, stop: int)
  {
    forall k :: 0 <= k < |xs| ==> start <= xs[k] < stop
  }

  /** `xs` is a list without repeats, threaded forward by `o` from `head`
    * and backward by `b`. */
  predicate Threaded(o: seq<int>, b: seq<int>, head: int, xs: seq<int>)
  {
    Linked(o, head, xs) && BackLinked(b, xs) && Distinct(xs)
  }

  /** The entries among the first `n` of `xs` that go to one side of the
    * split, in list order: the left block (`split` 1) when `toLeft`, the
    * right block otherwise. `split` is indexed from `start`. */
  function SideUpTo(xs: seq<int>, split: seq<int>, start: int, toLeft: bool, n: int): (r: seq<int>)
    requires InBlock(xs, start, start + |split|) && 0 <= n <= |xs|
    ensures |r| <= n && InBlock(r, start, start + |split|)
    ensures forall k :: 0 <= k < |r| ==> (split[r[k] - start] == 1 <==> toLeft)
  {
    if n == 0 then []
    else
      SideUpTo(xs, split, start, toLeft, n - 1) +
      (if (split[xs[n - 1] - start] == 1) == toLeft then [xs[n - 1]] else [])
  }

  /** The entries of the whole list `xs` that go to one side. */
  function Side(xs: seq<int>, split: seq<int>, start: int, toLeft: bool): (r: seq<int>)
    requires InBlock(xs, start, start + |split|)
    ensures |r| <= |xs| && InBlock(r, start, start + |split|)
    ensures forall k :: 0 <= k < |r| ==> (split[r[k] - start] == 1 <==> toLeft)
  {
    SideUpTo(xs, split, start, toLeft, |xs|)
  }

  /** Every entry of the list lands on its side. */
  lemma {:induction false} SideUpToComplete(xs: seq<int>, split: seq<int>, start: int, toLeft: bool, n: int, k: int)
    requires InBlock(xs, start, start + |split|) && 0 <= k < n <= |xs|
    requires split[xs[k] - start] == 1 <==> toLeft
    ensures xs[k] in SideUpTo(xs, split, start, toLeft, n)
  {
    if k < n - 1 {
      SideUpToComplete(xs, split, start, toLeft, n - 1, k);
    }
  }

  /** A list under construction: linked and back linked up to its last
    * entry `last`, whose successor is not written yet; -1 for both head
    * and last while it is empty. */
  predicate Open(o: seq<int>, b: seq<int>, head: int, last: int, ys: seq<int>)
  {
    (forall k :: 0 <= k < |ys| ==> 0 <= ys[k] < |o|) &&
    (ys == [] ==> head == -1 && last == -1) &&
    (ys != [] ==> head == ys[0] && last == ys[|ys| - 1]) &&
    (forall k :: 0 <= k < |ys| - 1 ==> o[ys[k]] == ys[k + 1]) &&
    BackLinked(b, ys)
  }

  /** Appending `x` to an open list: the old last entry now leads to `x`
    * (or `x` becomes the head) and `x` links back to it. */
  lemma OpenAppend(o: seq<int>, b: seq<int>, head: int, last: int, ys: seq<int>, x: int)
    requires Open(o, b, head, last, ys) && Distinct(ys) && 0 <= x < |o| == |b| && x !in ys
    ensures Open(if last < 0 then o else o[last := x], b[x := last],
                 if last < 0 then x else head, x, ys + [x])
    ensures Distinct(ys + [x])
  {
    var o2 := if last < 0 then o else o[last := x];
    var b2 := b[x := last];
    var zs := ys + [x];
    forall k | 0 <= k < |zs| - 1
      ensures o2[zs[k]] == zs[k + 1]
    {
      if k < |ys| - 1 {
        assert ys[k] != ys[|ys| - 1];
      }
    }
    forall k | 0 <= k < |zs|
      ensures 0 <= zs[k] < |b2| && b2[zs[k]] == Prev(zs, k)
    {
      if k < |ys| {
        assert zs[k] == ys[k] != x;
        assert Prev(zs, k) == Prev(ys, k);
      }
    }
    DistinctConcat(ys, [x]);
  }

  /** Writes off the entries of an open list keep it as it was. */
  lemma OpenFrame(o: seq<int>, b: seq<int>, o2: seq<int>, b2: seq<int>, head: int, last: int, ys: seq<int>)
    requires Open(o, b, head, last, ys) && |o2| == |o| && |b2| == |b|
    requires forall k :: 0 <= k < |ys| ==> o2[ys[k]] == o[ys[k]] && b2[ys[k]] == b[ys[k]]
    ensures Open(o2, b2, head, last, ys)
  {
  }

  /** Ending an open list with -1 makes it a threaded list. */
  lemma OpenClose(o: seq<int>, b: seq<int>, head: int, last: int, ys: seq<int>)
    requires Open(o, b, head, last, ys) && Distinct(ys)
    ensures Threaded(if last >= 0 then o[last := -1] else o, b, head, ys)
  {
    var o2 := if last >= 0 then o[last := -1] else o;
    forall k | 0 <= k < |ys| - 1
      ensures o2[ys[k]] == ys[k + 1]
    {
      assert ys[k] != ys[|ys| - 1];
    }
  }

  // The state of the first loop of `MatrixPartition` after `j` entries of
  // the list `xs`, in four parts: where the walk is, what each side holds
  // so far, what has not changed, and the two lists under construction.

  /** The walk is at entry `j` of the list `xs` linked by `o`: `current` is
    * that entry, negative once the list is over. */
  predicate SplitWalk(o: seq<int>, xs: seq<int>, split: seq<int>, start: int, j: int, current: int)
  {
    InBlock(xs, start, start + |split|) && Distinct(xs) &&
    (forall k :: 0 <= k < |xs| ==> 0 <= xs[k] < |o|) &&
    (forall k :: 0 <= k < |xs| - 1 ==> o[xs[k]] == xs[k + 1]) &&
    (xs != [] ==> o[xs[|xs| - 1]] == -1) &&
    0 <= j <= |xs| && (j < |xs| ==> current == xs[j]) && (j == |xs| ==> current < 0)
  }

  /** The left list so far `ys` and the right list so far `zs` are the two
    * sides of the first `j` entries. */
  ghost predicate SplitSides(xs: seq<int>, split: seq<int>, start: int, j: int, ys: seq<int>, zs: seq<int>)
  {
    InBlock(xs, start, start + |split|) && Distinct(xs) && 0 <= j <= |xs| &&
    ys == SideUpTo(xs, split, start, true, j) && zs == SideUpTo(xs, split, start, false, j)
  }

  /** The entries of one side of the first `n` entries are entries of `xs`,
    * none of them is an entry from `n` on, and none repeats. */
  lemma {:induction false} SideUpToEntries(xs: seq<int>, split: seq<int>, start: int, toLeft: bool, n: int)
    requires InBlock(xs, start, start + |split|) && 0 <= n <= |xs| && Distinct(xs)
    ensures var r := SideUpTo(xs, split, start, toLeft, n);
      (forall k :: 0 <= k < |r| ==> r[k] in xs) &&
      (forall k, m :: 0 <= k < |r| && n <= m < |xs| ==> r[k] != xs[m]) &&
      Distinct(r)
  {
    if n > 0 {
      SideUpToEntries(xs, split, start, toLeft, n - 1);
      var r0 := SideUpTo(xs, split, start, toLeft, n - 1);
      var tail := if (split[xs[n - 1] - start] == 1) == toLeft then [xs[n - 1]] else [];
      assert SideUpTo(xs, split, start, toLeft, n) == r0 + tail;
      forall k | 0 <= k < |r0|
        ensures r0[k] != xs[n - 1]
      {
      }
      DistinctConcat(r0, tail);
    }
  }

  /** No point off the list has changed, and the entries from `j` on still
    * lead on. */
  ghost predicate SplitFrame(o: seq<int>, b: seq<int>, xs: seq<int>, j: int, o2: seq<int>, b2: seq<int>)
  {
    |o2| == |o| && |b2| == |b| && |b| == |o| &&
    (forall k :: 0 <= k < |xs| ==> 0 <= xs[k] < |o|) &&
    (forall x :: 0 <= x < |o| && x !in xs ==> o2[x] == o[x] && b2[x] == b[x]) &&
    (forall k :: 0 <= j <= k < |xs| ==> o2[xs[k]] == o[xs[k]])
  }

  lemma SidesLeft(xs: seq<int>, split: seq<int>, start: int, j: int, ys: seq<int>, zs: seq<int>)
    requires SplitSides(xs, split, start, j, ys, zs) && j < |xs| && split[xs[j] - start] == 1
    ensures SplitSides(xs, split, start, j + 1, ys + [xs[j]], zs)
  {
    assert SideUpTo(xs, split, start, false, j + 1) == zs + [];
  }

  lemma SidesRight(xs: seq<int>, split: seq<int>, start: int, j: int, ys: seq<int>, zs: seq<int>)
    requires SplitSides(xs, split, start, j, ys, zs) && j < |xs| && split[xs[j] - start] != 1
    ensures SplitSides(xs, split, start, j + 1, ys, zs + [xs[j]])
  {
    assert SideUpTo(xs, split, start, true, j + 1) == ys + [];
  }

  /** Writing the successor of an earlier entry `last` and the back link of
    * entry `j` keeps the frame, one entry further on. */
  lemma FrameStep(o: seq<int>, b: seq<int>, xs: seq<int>, j: int, o2: seq<int>, b2: seq<int>,
                  last: int, prev: int)
    requires SplitFrame(o, b, xs, j, o2, b2) && 0 <= j < |xs| && 0 <= xs[j] < |b|
    requires last < 0 || (last in xs && forall m :: j <= m < |xs| ==> last != xs[m])
    ensures var o3 := if last < 0 then o2 else o2[last := xs[j]];
      SplitFrame(o, b, xs, j + 1, o3, b2[xs[j] := prev]) && o3[xs[j]] == o[xs[j]]
  {
    assert xs[j] in xs;
  }

  /** Appending entry `x` to one open list leaves the other one open. */
  lemma OpenStep(o2: seq<int>, b2: seq<int>, head: int, last: int, ys: seq<int>,
                 headO: int, lastO: int, zs: seq<int>, x: int)
    requires Open(o2, b2, head, last, ys) && Open(o2, b2, headO, lastO, zs)
    requires Distinct(ys) && 0 <= x < |o2| == |b2| && x !in ys && x !in zs
    requires forall k :: 0 <= k < |zs| ==> zs[k] != last
    ensures var o3 := if last < 0 then o2 else o2[last := x];
      Open(o3, b2[x := last], if last < 0 then x else head, x, ys + [x]) &&
      Open(o3, b2[x := last], headO, lastO, zs)
  {
    var o3 := if last < 0 then o2 else o2[last := x];
    OpenAppend(o2, b2, head, last, ys, x);
    OpenFrame(o2, b2, o3, b2[x := last], headO, lastO, zs);
  }

  /** What the walk needs of the two sides so far: entry `j` is on neither,
    * neither repeats, and the last entry of each, when there is one, is an
    * entry before `j` that is not on the other side. */
  lemma SidesSoFar(xs: seq<int>, split: seq<int>, start: int, j: int, ys: seq<int>, zs: seq<int>,
                   o2: seq<int>, b2: seq<int>, headL: int, leftIndex: int, headR: int, rightIndex: int)
    requires SplitSides(xs, split, start, j, ys, zs)
    requires Open(o2, b2, headL, leftIndex, ys) && Open(o2, b2, headR, rightIndex, zs)
    ensures Distinct(ys) && Distinct(zs)
    ensures j < |xs| ==> xs[j] !in ys && xs[j] !in zs
    ensures leftIndex < 0 || (leftIndex in xs && forall m :: j <= m < |xs| ==> leftIndex != xs[m])
    ensures rightIndex < 0 || (rightIndex in xs && forall m :: j <= m < |xs| ==> rightIndex != xs[m])
    ensures forall k :: 0 <= k < |zs| ==> zs[k] != leftIndex
    ensures forall k :: 0 <= k < |ys| ==> ys[k] != rightIndex
  {
    SideUpToEntries(xs, split, start, true, j);
    SideUpToEntries(xs, split, start, false, j);
    SidesApart(ys, zs, split, start);
  }

  /** No entry is on both sides. */
  lemma SidesApart(ys: seq<int>, zs: seq<int>, split: seq<int>, start: int)
    requires InBlock(ys, start, start + |split|) && InBlock(zs, start, start + |split|)
    requires forall k :: 0 <= k < |ys| ==> split[ys[k] - start] == 1
    requires forall k :: 0 <= k < |zs| ==> split[zs[k] - start] != 1
    ensures forall a, c :: 0 <= a < |ys| && 0 <= c < |zs| ==> ys[a] != zs[c]
  {
  }

  /** Ending both lists with -1 once the walk is over. */
  lemma SplitFinish(o: seq<int>, b: seq<int>, xs: seq<int>, o2: seq<int>, b2: seq<int>,
                    headL: int, headR: int, leftIndex: int, rightIndex: int, ys: seq<int>, zs: seq<int>)
    requires SplitFrame(o, b, xs, |xs|, o2, b2) && Distinct(ys) && Distinct(zs)
    requires Open(o2, b2, headL, leftIndex, ys) && Open(o2, b2, headR, rightIndex, zs)
    requires forall k :: 0 <= k < |zs| ==> zs[k] != leftIndex
    requires forall k :: 0 <= k < |ys| ==> ys[k] != rightIndex
    requires leftIndex >= 0 ==> leftIndex in xs
    requires rightIndex >= 0 ==> rightIndex in xs
    ensures var o3 := if leftIndex >= 0 then o2[leftIndex := -1] else o2;
      var o4 := if rightIndex >= 0 then o3[rightIndex := -1] else o3;
      Threaded(o4, b2, headL, ys) && Threaded(o4, b2, headR, zs) &&
      forall x :: 0 <= x < |o| && x !in xs ==> o4[x] == o[x] && b2[x] == b[x]
  {
    var o3 := if leftIndex >= 0 then o2[leftIndex := -1] else o2;
    var o4 := if rightIndex >= 0 then o3[rightIndex := -1] else o3;
    OpenFrame(o2, b2, o3, b2, headR, rightIndex, zs);
    OpenClose(o2, b2, headL, leftIndex, ys);
    OpenFrame(o3, b2, o4, b2, headL, leftIndex, ys);
    OpenClose(o3, b2, headR, rightIndex, zs);
  }

  /** The walk moves on to the successor of the current entry. */
  lemma WalkStep(o: seq<int>, xs: seq<int>, split: seq<int>, start: int, j: int, current: int)
    requires SplitWalk(o, xs, split, start, j, current) && current >= 0
    ensures j < |xs| && current == xs[j] && 0 <= current < |o|
    ensures SplitWalk(o, xs, split, start, j + 1, o[current])
  {
  }

  /** One turn of the first loop of `MatrixPartition` for an entry with
    * split 1: `current` goes onto the left list, as its head when the list
    * is empty or as the successor of `leftIndex`, and links back to
    * `leftIndex`. */
  method VisitLeft(o: seq<int>, b: seq<int>, ghost xs: seq<int>, split: seq<int>, start: int,
                   ghost j: int, current: int, o2: seq<int>, b2: seq<int>,
                   headL: int, headR: int, leftIndex: int, rightIndex: int, ghost ys: seq<int>, ghost zs: seq<int>)
    returns (o3: seq<int>, b3: seq<int>, headL3: int, headR3: int, leftIndex3: int, rightIndex3: int,
             ghost ys3: seq<int>, ghost zs3: seq<int>)
    requires SplitWalk(o, xs, split, start, j, current) && current >= 0 && split[current - start] == 1
    requires SplitSides(xs, split, start, j, ys, zs) && SplitFrame(o, b, xs, j, o2, b2)
    requires Open(o2, b2, headL, leftIndex, ys) && Open(o2, b2, headR, rightIndex, zs)
    ensures SplitFrame(o, b, xs, j + 1, o3, b3) && SplitWalk(o, xs, split, start, j + 1, o3[current])
    ensures SplitSides(xs, split, start, j + 1, ys3, zs3)
    ensures Open(o3, b3, headL3, leftIndex3, ys3) && Open(o3, b3, headR3, rightIndex3, zs3)
  {
    WalkStep(o, xs, split, start, j, current);
    SidesSoFar(xs, split, start, j, ys, zs, o2, b2, headL, leftIndex, headR, rightIndex);
    SidesLeft(xs, split, start, j, ys, zs);
    FrameStep(o, b, xs, j, o2, b2, leftIndex, leftIndex);
    OpenStep(o2, b2, headL, leftIndex, ys, headR, rightIndex, zs, current);
    o3 := if leftIndex < 0 then o2 else o2[leftIndex := current];
    headL3 := if leftIndex < 0 then current else headL;
    headR3 := headR;
    b3 := b2[current := leftIndex];
    leftIndex3, rightIndex3 := current, rightIndex;
    ys3, zs3 := ys + [current], zs;
  }

  /** The same turn for an entry whose split is not 1: `current` goes onto
    * the right list. */
  method VisitRight(o: seq<int>, b: seq<int>, ghost xs: seq<int>, split: seq<int>, start: int,
                    ghost j: int, current: int, o2: seq<int>, b2: seq<int>,
                    headL: int, headR: int, leftIndex: int, rightIndex: int, ghost ys: seq<int>, ghost zs: seq<int>)
    returns (o3: seq<int>, b3: seq<int>, headL3: int, headR3: int, leftIndex3: int, rightIndex3: int,
             ghost ys3: seq<int>, ghost zs3: seq<int>)
    requires SplitWalk(o, xs, split, start, j, current) && current >= 0 && split[current - start] != 1
    requires SplitSides(xs, split, start, j, ys, zs) && SplitFrame(o, b, xs, j, o2, b2)
    requires Open(o2, b2, headL, leftIndex, ys) && Open(o2, b2, headR, rightIndex, zs)
    ensures SplitFrame(o, b, xs, j + 1, o3, b3) && SplitWalk(o, xs, split, start, j + 1, o3[current])
    ensures SplitSides(xs, split, start, j + 1, ys3, zs3)
    ensures Open(o3, b3, headL3, leftIndex3, ys3) && Open(o3, b3, headR3, rightIndex3, zs3)
  {
    WalkStep(o, xs, split, start, j, current);
    SidesSoFar(xs, split, start, j, ys, zs, o2, b2, headL, leftIndex, headR, rightIndex);
    assert split[xs[j] - start] != 1;
    SidesRight(xs, split, start, j, ys, zs);
    FrameStep(o, b, xs, j, o2, b2, rightIndex, rightIndex);
    OpenStep(o2, b2, headR, rightIndex, zs, headL, leftIndex, ys, current);
    o3 := if rightIndex < 0 then o2 else o2[rightIndex := current];
    headR3 := if rightIndex < 0 then current else headR;
    headL3 := headL;
    b3 := b2[current := rightIndex];
    leftIndex3, rightIndex3 := leftIndex, current;
    ys3, zs3 := ys, zs + [current];
  }

  /** The end of the walk: both lists are ended with -1, and they are the
    * two sides of the whole list. */
  method SplitClose(o: seq<int>, b: seq<int>, ghost xs: seq<int>, split: seq<int>, start: int,
                    ghost j: int, current: int, o2: seq<int>, b2: seq<int>,
                    headL: int, headR: int, leftIndex: int, rightIndex: int, ghost ys: seq<int>, ghost zs: seq<int>)
    returns (o3: seq<int>)
    requires SplitWalk(o, xs, split, start, j, current) && current < 0
    requires SplitSides(xs, split, start, j, ys, zs) && SplitFrame(o, b, xs, j, o2, b2)
    requires Open(o2, b2, headL, leftIndex, ys) && Open(o2, b2, headR, rightIndex, zs)
    ensures |o3| == |o| && |b2| == |b|
    ensures Threaded(o3, b2, headL, Side(xs, split, start, true))
    ensures Threaded(o3, b2, headR, Side(xs, split, start, false))
    ensures forall x :: 0 <= x < |o| && x !in xs ==> o3[x] == o[x] && b2[x] == b[x]
  {
    SidesSoFar(xs, split, start, j, ys, zs, o2, b2, headL, leftIndex, headR, rightIndex);
    SplitFinish(o, b, xs, o2, b2, headL, headR, leftIndex, rightIndex, ys, zs);
    o3 := o2;
    if leftIndex >= 0 {
      o3 := o3[leftIndex := -1];
    }
    if rightIndex >= 0 {
      o3 := o3[rightIndex := -1];
    }
  }

  /** The first loop of `MatrixPartition` on one feature's list `xs`: walks
    * the list and threads each point onto the left list (`split` 1) or the
    * right list, keeping the list order, with heads `headL` and `headR`
    * (-1 for an empty side) and both lists ended by -1. Points off the list
    * keep their links. */
  method SplitList(o: seq<int>, b: seq<int>, head: int, ghost xs: seq<int>, split: seq<int>, start: int)
    returns (o2: seq<int>, b2: seq<int>, headL: int, headR: int)
    requires |b| == |o| && Linked(o, head, xs) && Distinct(xs)
    requires InBlock(xs, start, start + |split|)
    ensures |o2| == |o| && |b2| == |b|
    ensures Threaded(o2, b2, headL, Side(xs, split, start, true))
    ensures Threaded(o2, b2, headR, Side(xs, split, start, false))
    ensures forall x :: 0 <= x < |o| && x !in xs ==> o2[x] == o[x] && b2[x] == b[x]
  {
    o2, b2 := o, b;
    headL, headR := -1, -1;
    var leftIndex, rightIndex := -1, -1;
    var current := head;
    ghost var j := 0;
    ghost var ys, zs := [], [];
    while current >= 0
      invariant SplitWalk(o, xs, split, start, j, current)
      invariant SplitSides(xs, split, start, j, ys, zs)
      invariant SplitFrame(o, b, xs, j, o2, b2)
      invariant Open(o2, b2, headL, leftIndex, ys) && Open(o2, b2, headR, rightIndex, zs)
      decreases |xs| - j
    {
      if split[current - start] == 1 {
        o2, b2, headL, headR, leftIndex, rightIndex, ys, zs :=
          VisitLeft(o, b, xs, split, start, j, current, o2, b2, headL, headR, leftIndex, rightIndex, ys, zs);
      } else {
        o2, b2, headL, headR, leftIndex, rightIndex, ys, zs :=
          VisitRight(o, b, xs, split, start, j, current, o2, b2, headL, headR, leftIndex, rightIndex, ys, zs);
      }
      current := o2[current];
      j := j + 1;
    }
    o2 := SplitClose(o, b, xs, split, start, j, current, o2, b2, headL, headR, leftIndex, rightIndex, ys, zs);
  }

  // ---------------------------------------------------------------------
  // The index of a block of points, before and after the first phase
  // ---------------------------------------------------------------------

  /** One ordinal feature's index over the block [start, stop): the list
    * `xs` from `head` is threaded both ways through points of the block,
    * and every other point of the block is off the lists (-2 both ways). */
  ghost predicate BlockIndexed(o: seq<int>, b: seq<int>, head: int, xs: seq<int>, start: int, stop: int)
  {
    |o| == |b| && 0 <= start <= stop <= |o| &&
    Threaded(o, b, head, xs) && InBlock(xs, start, stop) &&
    forall x :: start <= x < stop && x !in xs ==> o[x] == -2 && b[x] == -2
  }

  /** One feature between the two phases and through the swaps: the left
    * list `ls` from `hl` holds points whose split is 1, the right list `rs`
    * from `hr` points whose split is not, both threaded through the block,
    * and every other point of the block is off the lists. */
  ghost predicate Partitioned(o: seq<int>, b: seq<int>, hl: int, hr: int, ls: seq<int>, rs: seq<int>,
                              split: seq<int>, start: int, stop: int)
  {
    |o| == |b| && 0 <= start <= stop <= |o| && |split| == stop - start &&
    Threaded(o, b, hl, ls) && Threaded(o, b, hr, rs) &&
    InBlock(ls, start, stop) && InBlock(rs, start, stop) &&
    (forall k :: 0 <= k < |ls| ==> split[ls[k] - start] == 1) &&
    (forall k :: 0 <= k < |rs| ==> split[rs[k] - start] != 1) &&
    (forall x :: start <= x < stop && x !in ls && x !in rs ==> o[x] == -2 && b[x] == -2)
  }

  /** The index `Init` builds for a whole feature is the index of the block
    * of all points. */
  lemma IndexedBlock(vals: seq<Value>, o: seq<int>, b: seq<int>, head: int, xs: seq<int>)
    requires FeatureIndexed(vals, o, b, head, xs)
    ensures BlockIndexed(o, b, head, xs, 0, |vals|)
  {
  }

  /** Splitting an indexed block's list by side gives the two-list state. */
  lemma SplitPartitions(o: seq<int>, b: seq<int>, head: int, xs: seq<int>, split: seq<int>, start: int, stop: int,
                        o2: seq<int>, b2: seq<int>, hl: int, hr: int)
    requires BlockIndexed(o, b, head, xs, start, stop) && |split| == stop - start
    requires |o2| == |o| && |b2| == |b|
    requires Threaded(o2, b2, hl, Side(xs, split, start, true))
    requires Threaded(o2, b2, hr, Side(xs, split, start, false))
    requires forall x :: 0 <= x < |o| && x !in xs ==> o2[x] == o[x] && b2[x] == b[x]
    ensures Partitioned(o2, b2, hl, hr, Side(xs, split, start, true), Side(xs, split, start, false),
                        split, start, stop)
  {
    forall x | start <= x < stop && x in xs
      ensures x in Side(xs, split, start, true) || x in Side(xs, split, start, false)
    {
      OnASide(xs, split, start, x);
    }
  }

  /** Every entry of the list is on one of the two sides. */
  lemma OnASide(xs: seq<int>, split: seq<int>, start: int, x: int)
    requires InBlock(xs, start, start + |split|) && x in xs
    ensures x in Side(xs, split, start, true) || x in Side(xs, split, start, false)
  {
    var k :| 0 <= k < |xs| && xs[k] == x;
    SideUpToComplete(xs, split, start, split[x - start] == 1, |xs|, k);
  }

  /** Once every point of [start, left) has split 1 and every other point
    * of the block has not, the left list indexes [start, left) and the
    * right list [left, stop). */
  lemma PartitionedHalves(o: seq<int>, b: seq<int>, hl: int, hr: int, ls: seq<int>, rs: seq<int>,
                          split: seq<int>, start: int, left: int, stop: int)
    requires Partitioned(o, b, hl, hr, ls, rs, split, start, stop) && start <= left <= stop
    requires forall k :: 0 <= k < left - start ==> split[k] == 1
    requires forall k :: left - start <= k < |split| ==> split[k] != 1
    ensures BlockIndexed(o, b, hl, ls, start, left) && BlockIndexed(o, b, hr, rs, left, stop)
  {
    forall k | 0 <= k < |ls|
      ensures ls[k] < left
    {
      assert split[ls[k] - start] == 1;
    }
    forall k | 0 <= k < |rs|
      ensures left <= rs[k]
    {
      assert split[rs[k] - start] != 1;
    }
    forall x | start <= x < left && x !in ls
      ensures x !in rs
    {
      assert split[x - start] == 1;
    }
    forall x | left <= x < stop && x !in rs
      ensures x !in ls
    {
      assert split[x - start] != 1;
    }
  }

  // ---------------------------------------------------------------------
  // MatrixPartition, second phase: swapping two points
  // ---------------------------------------------------------------------

  /** Point `x` once points `l` and `r` have exchanged places. */
  function Sw(x: int, l: int, r: int): int
  {
    if x == l then r else if x == r then l else x
  }

  /** The list `xs` once points `l` and `r` have exchanged places. */
  function Rename(xs: seq<int>, l: int, r: int): (ys: seq<int>)
    ensures |ys| == |xs| && forall k :: 0 <= k < |xs| ==> ys[k] == Sw(xs[k], l, r)
  {
    seq(|xs|, k requires 0 <= k < |xs| => Sw(xs[k], l, r))
  }

  /** `s` with the entries at `i` and `j` exchanged. */
  function SwapAt<T>(s: seq<T>, i: int, j: int): (t: seq<T>)
    requires 0 <= i < |s| && 0 <= j < |s|
    ensures |t| == |s| && t[i] == s[j] && t[j] == s[i]
    ensures forall k :: 0 <= k < |s| && k != i && k != j ==> t[k] == s[k]
  {
    s[i := s[j]][j := s[i]]
  }

  /** What the relinking of `l` and `r` relies on: within the block, `o`
    * and `b` are inverse wherever they link, neither point links to itself
    * or to the other, a point without predecessor is the head of its list,
    * and `l` is not the left head nor `r` the right head. */
  ghost predicate RelinkReady(o: seq<int>, b: seq<int>, hl: int, hr: int, l: int, r: int, start: int, stop: int)
  {
    |o| == |b| && 0 <= start <= l < r < stop <= |o| &&
    (forall x :: start <= x < stop && o[x] >= 0 ==> start <= o[x] < stop && b[o[x]] == x) &&
    (forall x :: start <= x < stop && b[x] >= 0 ==> start <= b[x] < stop && o[b[x]] == x) &&
    o[l] != l && o[l] != r && o[r] != l && o[r] != r &&
    (b[l] == -1 <==> hr == l) && (b[r] == -1 <==> hl == r) && hl != l && hr != r
  }

  /** `o2`, `b2`, `hl2` and `hr2` are `o`, `b`, `hl` and `hr` with points
    * `l` and `r` exchanged throughout the block; outside it nothing has
    * changed. */
  ghost predicate Relinked(o: seq<int>, b: seq<int>, hl: int, hr: int,
                           o2: seq<int>, b2: seq<int>, hl2: int, hr2: int, l: int, r: int, start: int, stop: int)
  {
    0 <= start <= l < stop && start <= r < stop <= |o| && |b| == |o| &&
    |o2| == |o| && |b2| == |b| &&
    (forall x :: start <= x < stop ==> o2[Sw(x, l, r)] == Sw(o[x], l, r) && b2[Sw(x, l, r)] == Sw(b[x], l, r)) &&
    (forall x :: 0 <= x < |o| && !(start <= x < stop) ==> o2[x] == o[x] && b2[x] == b[x]) &&
    hl2 == Sw(hl, l, r) && hr2 == Sw(hr, l, r)
  }

  /** Successors that moved with `l` and `r` and were redirected into
    * them are the old successors with `l` and `r` exchanged. */
  lemma ForwardRelinked(o: seq<int>, b: seq<int>, hl: int, hr: int, l: int, r: int, start: int, stop: int, o2: seq<int>)
    requires RelinkReady(o, b, hl, hr, l, r, start, stop) && |o2| == |o|
    requires o2[l] == o[r] && o2[r] == o[l]
    requires b[l] >= 0 ==> o2[b[l]] == r
    requires b[r] >= 0 ==> o2[b[r]] == l
    requires forall x :: 0 <= x < |o| && x != l && x != r && x != b[l] && x != b[r] ==> o2[x] == o[x]
    ensures forall x :: start <= x < stop ==> o2[Sw(x, l, r)] == Sw(o[x], l, r)
  {
    forall x | start <= x < stop
      ensures o2[Sw(x, l, r)] == Sw(o[x], l, r)
    {
      if x != l && x != r && x != b[l] && x != b[r] && o[x] >= 0 {
        assert b[o[x]] == x;
      }
    }
  }

  /** Likewise for the predecessors. */
  lemma BackwardRelinked(o: seq<int>, b: seq<int>, hl: int, hr: int, l: int, r: int, start: int, stop: int, b2: seq<int>)
    requires RelinkReady(o, b, hl, hr, l, r, start, stop) && |b2| == |b|
    requires b2[l] == b[r] && b2[r] == b[l]
    requires o[l] >= 0 ==> b2[o[l]] == r
    requires o[r] >= 0 ==> b2[o[r]] == l
    requires forall x :: 0 <= x < |b| && x != l && x != r && x != o[l] && x != o[r] ==> b2[x] == b[x]
    ensures forall x :: start <= x < stop ==> b2[Sw(x, l, r)] == Sw(b[x], l, r)
  {
    forall x | start <= x < stop
      ensures b2[Sw(x, l, r)] == Sw(b[x], l, r)
    {
      if x != l && x != r && x != o[l] && x != o[r] && b[x] >= 0 {
        assert o[b[x]] == x;
      }
    }
  }

  /** Point by point, the writes of the relinking give `Relinked`. */
  lemma RelinkedIntro(o: seq<int>, b: seq<int>, hl: int, hr: int, l: int, r: int, start: int, stop: int,
                      o2: seq<int>, b2: seq<int>, hl2: int, hr2: int)
    requires RelinkReady(o, b, hl, hr, l, r, start, stop) && |o2| == |o| && |b2| == |b|
    requires o2[l] == o[r] && o2[r] == o[l]
    requires b[l] >= 0 ==> o2[b[l]] == r
    requires b[r] >= 0 ==> o2[b[r]] == l
    requires forall x :: 0 <= x < |o| && x != l && x != r && x != b[l] && x != b[r] ==> o2[x] == o[x]
    requires b2[l] == b[r] && b2[r] == b[l]
    requires o[l] >= 0 ==> b2[o[l]] == r
    requires o[r] >= 0 ==> b2[o[r]] == l
    requires forall x :: 0 <= x < |b| && x != l && x != r && x != o[l] && x != o[r] ==> b2[x] == b[x]
    requires hl2 == (if b[r] == -1 then l else hl) && hr2 == (if b[l] == -1 then r else hr)
    ensures Relinked(o, b, hl, hr, o2, b2, hl2, hr2, l, r, start, stop)
  {
    ForwardRelinked(o, b, hl, hr, l, r, start, stop, o2);
    BackwardRelinked(o, b, hl, hr, l, r, start, stop, b2);
  }

  /** The update of one feature's lists after points `l` and `r` exchange
    * places: the links out of each point move to the other, the links
    * into each point are redirected, and a list head at either point
    * follows it. */
  method Relink(o: seq<int>, b: seq<int>, hl: int, hr: int, l: int, r: int, start: int, stop: int)
    returns (o2: seq<int>, b2: seq<int>, hl2: int, hr2: int)
    requires RelinkReady(o, b, hl, hr, l, r, start, stop)
    ensures Relinked(o, b, hl, hr, o2, b2, hl2, hr2, l, r, start, stop)
  {
    var orderL, orderR, backL, backR := o[l], o[r], b[l], b[r];
    b2 := if orderL >= 0 then b[orderL := r] else b;
    o2 := o[l := orderR];
    b2 := if orderR >= 0 then b2[orderR := l] else b2;
    o2 := o2[r := orderL];
    o2 := if backL >= 0 then o2[backL := r] else o2;
    hr2 := if backL == -1 then r else hr;
    b2 := b2[r := backL];
    o2 := if backR >= 0 then o2[backR := l] else o2;
    hl2 := if backR == -1 then l else hl;
    b2 := b2[l := backR];
    RelinkedIntro(o, b, hl, hr, l, r, start, stop, o2, b2, hl2, hr2);
  }

  /** The links at entry `k` of a threaded list: a successor is the next
    * entry, a predecessor the one before, and only the head has -1 as its
    * predecessor. */
  lemma ListLinks(o: seq<int>, b: seq<int>, head: int, xs: seq<int>, k: int)
    requires Threaded(o, b, head, xs) && 0 <= k < |xs|
    ensures o[xs[k]] >= 0 ==> k + 1 < |xs| && o[xs[k]] == xs[k + 1] && b[xs[k + 1]] == xs[k]
    ensures b[xs[k]] >= 0 ==> k > 0 && b[xs[k]] == xs[k - 1] && o[xs[k - 1]] == xs[k]
    ensures b[xs[k]] == -1 <==> k == 0
    ensures o[xs[k]] != xs[k]
  {
    if k + 1 < |xs| {
      assert b[xs[k + 1]] == Prev(xs, k + 1);
    }
    assert b[xs[k]] == Prev(xs, k);
  }

  /** Relinking applies to a point `l` bound right (split not 1) and a
    * point `r` bound left (split 1) of a feature in the two-list state. */
  lemma PartitionedReady(o: seq<int>, b: seq<int>, hl: int, hr: int, ls: seq<int>, rs: seq<int>,
                         split: seq<int>, start: int, stop: int, l: int, r: int)
    requires Partitioned(o, b, hl, hr, ls, rs, split, start, stop)
    requires start <= l < r < stop && split[l - start] != 1 && split[r - start] == 1
    ensures RelinkReady(o, b, hl, hr, l, r, start, stop)
  {
    ForwardInverse(o, b, hl, hr, ls, rs, split, start, stop);
    BackwardInverse(o, b, hl, hr, ls, rs, split, start, stop);
    RightPointLinks(o, b, hl, hr, ls, rs, split, start, stop, l);
    LeftPointLinks(o, b, hl, hr, ls, rs, split, start, stop, r);
  }

  /** In the two-list state a successor within the block links back. */
  lemma ForwardInverse(o: seq<int>, b: seq<int>, hl: int, hr: int, ls: seq<int>, rs: seq<int>,
                       split: seq<int>, start: int, stop: int)
    requires Partitioned(o, b, hl, hr, ls, rs, split, start, stop)
    ensures forall x :: start <= x < stop && o[x] >= 0 ==> start <= o[x] < stop && b[o[x]] == x
  {
    forall x | start <= x < stop && o[x] >= 0
      ensures start <= o[x] < stop && b[o[x]] == x
    {
      if x in ls {
        var k :| 0 <= k < |ls| && ls[k] == x;
        ListLinks(o, b, hl, ls, k);
      } else if x in rs {
        var k :| 0 <= k < |rs| && rs[k] == x;
        ListLinks(o, b, hr, rs, k);
      }
    }
  }

  /** In the two-list state a predecessor within the block links forward. */
  lemma BackwardInverse(o: seq<int>, b: seq<int>, hl: int, hr: int, ls: seq<int>, rs: seq<int>,
                        split: seq<int>, start: int, stop: int)
    requires Partitioned(o, b, hl, hr, ls, rs, split, start, stop)
    ensures forall x :: start <= x < stop && b[x] >= 0 ==> start <= b[x] < stop && o[b[x]] == x
  {
    forall x | start <= x < stop && b[x] >= 0
      ensures start <= b[x] < stop && o[b[x]] == x
    {
      if x in ls {
        var k :| 0 <= k < |ls| && ls[k] == x;
        ListLinks(o, b, hl, ls, k);
      } else if x in rs {
        var k :| 0 <= k < |rs| && rs[k] == x;
        ListLinks(o, b, hr, rs, k);
      }
    }
  }

  /** A point bound right is on the right list or on none: its successor,
    * if any, is bound right too, it is the right head exactly when it has
    * no predecessor, and it is not the left head. */
  lemma RightPointLinks(o: seq<int>, b: seq<int>, hl: int, hr: int, ls: seq<int>, rs: seq<int>,
                        split: seq<int>, start: int, stop: int, l: int)
    requires Partitioned(o, b, hl, hr, ls, rs, split, start, stop)
    requires start <= l < stop && split[l - start] != 1
    ensures o[l] != l && (o[l] < 0 || (start <= o[l] < stop && split[o[l] - start] != 1))
    ensures (b[l] == -1 <==> hr == l) && hl != l
  {
    assert forall k :: 0 <= k < |ls| ==> ls[k] != l;
    assert hl != l by {
      if ls != [] { assert hl == ls[0]; }
    }
    if l in rs {
      var k :| 0 <= k < |rs| && rs[k] == l;
      ListLinks(o, b, hr, rs, k);
      if o[l] >= 0 {
        assert o[l] == rs[k + 1];
      }
    } else {
      assert o[l] == -2 && b[l] == -2;
      assert hr != l by {
        if rs != [] { assert hr == rs[0]; }
      }
    }
  }

  /** Likewise a point bound left, with the left list. */
  lemma LeftPointLinks(o: seq<int>, b: seq<int>, hl: int, hr: int, ls: seq<int>, rs: seq<int>,
                       split: seq<int>, start: int, stop: int, r: int)
    requires Partitioned(o, b, hl, hr, ls, rs, split, start, stop)
    requires start <= r < stop && split[r - start] == 1
    ensures o[r] != r && (o[r] < 0 || (start <= o[r] < stop && split[o[r] - start] == 1))
    ensures (b[r] == -1 <==> hl == r) && hr != r
  {
    assert forall k :: 0 <= k < |rs| ==> rs[k] != r;
    assert hr != r by {
      if rs != [] { assert hr == rs[0]; }
    }
    if r in ls {
      var k :| 0 <= k < |ls| && ls[k] == r;
      ListLinks(o, b, hl, ls, k);
      if o[r] >= 0 {
        assert o[r] == ls[k + 1];
      }
    } else {
      assert o[r] == -2 && b[r] == -2;
      assert hl != r by {
        if ls != [] { assert hl == ls[0]; }
      }
    }
  }

  /** Exchanging `l` and `r` in a threaded list and in its links gives a
    * threaded list. */
  lemma ThreadedRename(o: seq<int>, b: seq<int>, head: int, xs: seq<int>,
                       o2: seq<int>, b2: seq<int>, l: int, r: int)
    requires Threaded(o, b, head, xs) && 0 <= l < |o| && 0 <= r < |o| && l != r
    requires |b| == |o| && |o2| == |o| && |b2| == |b|
    requires forall k :: 0 <= k < |xs| ==> o2[Sw(xs[k], l, r)] == Sw(o[xs[k]], l, r)
    requires forall k :: 0 <= k < |xs| ==> b2[Sw(xs[k], l, r)] == Sw(b[xs[k]], l, r)
    ensures Threaded(o2, b2, Sw(head, l, r), Rename(xs, l, r))
  {
    LinkedRename(o, head, xs, o2, l, r);
    BackLinkedRename(b, xs, b2, l, r);
    DistinctRename(xs, l, r);
  }

  lemma LinkedRename(o: seq<int>, head: int, xs: seq<int>, o2: seq<int>, l: int, r: int)
    requires Linked(o, head, xs) && 0 <= l < |o| && 0 <= r < |o| && |o2| == |o|
    requires forall k :: 0 <= k < |xs| ==> o2[Sw(xs[k], l, r)] == Sw(o[xs[k]], l, r)
    ensures Linked(o2, Sw(head, l, r), Rename(xs, l, r))
  {
  }

  lemma BackLinkedRename(b: seq<int>, xs: seq<int>, b2: seq<int>, l: int, r: int)
    requires BackLinked(b, xs) && 0 <= l < |b| && 0 <= r < |b| && |b2| == |b|
    requires forall k :: 0 <= k < |xs| ==> b2[Sw(xs[k], l, r)] == Sw(b[xs[k]], l, r)
    ensures BackLinked(b2, Rename(xs, l, r))
  {
    var ys := Rename(xs, l, r);
    forall k | 0 <= k < |ys|
      ensures b2[ys[k]] == Prev(ys, k)
    {
      assert b2[ys[k]] == Sw(b[xs[k]], l, r);
      assert b[xs[k]] == Prev(xs, k);
      if k > 0 {
        assert ys[k - 1] == Sw(xs[k - 1], l, r);
      }
    }
  }

  lemma DistinctRename(xs: seq<int>, l: int, r: int)
    requires Distinct(xs) && l != r
    ensures Distinct(Rename(xs, l, r))
  {
    var ys := Rename(xs, l, r);
    forall a, c | 0 <= a < c < |ys|
      ensures ys[a] != ys[c]
    {
      assert xs[a] != xs[c];
    }
  }

  /** The relinking of a feature in the two-list state gives the two-list
    * state of the lists with `l` and `r` exchanged, under the split with
    * their entries exchanged. */
  lemma PartitionedSwap(o: seq<int>, b: seq<int>, hl: int, hr: int, ls: seq<int>, rs: seq<int>,
                        split: seq<int>, start: int, stop: int, l: int, r: int,
                        o2: seq<int>, b2: seq<int>, hl2: int, hr2: int)
    requires Partitioned(o, b, hl, hr, ls, rs, split, start, stop) && start <= l < r < stop
    requires Relinked(o, b, hl, hr, o2, b2, hl2, hr2, l, r, start, stop)
    ensures Partitioned(o2, b2, hl2, hr2, Rename(ls, l, r), Rename(rs, l, r),
                        SwapAt(split, l - start, r - start), start, stop)
  {
    ThreadedRename(o, b, hl, ls, o2, b2, l, r);
    ThreadedRename(o, b, hr, rs, o2, b2, l, r);
    SplitRename(ls, split, start, stop, l, r, true);
    SplitRename(rs, split, start, stop, l, r, false);
    OffListRename(o, b, ls, rs, start, stop, l, r, o2, b2);
  }

  /** Entries of a list on one side stay on it once both the list and the
    * split have `l` and `r` exchanged. */
  lemma SplitRename(xs: seq<int>, split: seq<int>, start: int, stop: int, l: int, r: int, toLeft: bool)
    requires InBlock(xs, start, stop) && |split| == stop - start && start <= l < r < stop
    requires forall k :: 0 <= k < |xs| ==> (split[xs[k] - start] == 1) == toLeft
    ensures InBlock(Rename(xs, l, r), start, stop)
    ensures forall k :: 0 <= k < |xs| ==>
      (SwapAt(split, l - start, r - start)[Rename(xs, l, r)[k] - start] == 1) == toLeft
  {
    var split2 := SwapAt(split, l - start, r - start);
    forall k | 0 <= k < |xs|
      ensures (split2[Rename(xs, l, r)[k] - start] == 1) == toLeft
    {
      assert split2[Sw(xs[k], l, r) - start] == split[xs[k] - start];
    }
  }

  /** A point of the block off both renamed lists was, before the swap,
    * at a point off both lists. */
  lemma OffListRename(o: seq<int>, b: seq<int>, ls: seq<int>, rs: seq<int>, start: int, stop: int,
                      l: int, r: int, o2: seq<int>, b2: seq<int>)
    requires 0 <= start <= l < r < stop <= |o| == |b| == |o2| == |b2|
    requires forall x :: start <= x < stop && x !in ls && x !in rs ==> o[x] == -2 && b[x] == -2
    requires forall x :: start <= x < stop ==> o2[Sw(x, l, r)] == Sw(o[x], l, r) && b2[Sw(x, l, r)] == Sw(b[x], l, r)
    ensures forall x :: start <= x < stop && x !in Rename(ls, l, r) && x !in Rename(rs, l, r) ==>
      o2[x] == -2 && b2[x] == -2
  {
    var ls2, rs2 := Rename(ls, l, r), Rename(rs, l, r);
    forall x | start <= x < stop && x !in ls2 && x !in rs2
      ensures o2[x] == -2 && b2[x] == -2
    {
      var y := Sw(x, l, r);
      assert forall k :: 0 <= k < |ls| ==> ls[k] != y by {
        forall k | 0 <= k < |ls|
          ensures ls[k] != y
        {
          assert ls2[k] != x;
        }
      }
      assert forall k :: 0 <= k < |rs| ==> rs[k] != y by {
        forall k | 0 <= k < |rs|
          ensures rs[k] != y
        {
          assert rs2[k] != x;
        }
      }
      assert Sw(y, l, r) == x;
    }
  }

  // ---------------------------------------------------------------------
  // All features
  // ---------------------------------------------------------------------

  /** Outside the block [start, stop) the links are as they were. */
  ghost predicate Unmoved(o: seq<int>, b: seq<int>, o2: seq<int>, b2: seq<int>, start: int, stop: int)
  {
    |o| == |b| && |o2| == |o| && |b2| == |b| &&
    forall x :: 0 <= x < |o| && !(start <= x < stop) ==> o2[x] == o[x] && b2[x] == b[x]
  }

  /** One ordinal feature after the first phase: its list `xs` split by
    * side into the two-list state, the links outside the block as in `o0`
    * and `b0`. */
  ghost predicate SplitFeature(o0: seq<int>, b0: seq<int>, o: seq<int>, b: seq<int>, hl: int, hr: int,
                               xs: seq<int>, split: seq<int>, start: int, stop: int)
  {
    InBlock(xs, start, start + |split|) &&
    Partitioned(o, b, hl, hr, Side(xs, split, start, true), Side(xs, split, start, false), split, start, stop) &&
    Unmoved(o0, b0, o, b, start, stop)
  }

  /** The first loop on one ordinal feature whose list indexes the block. */
  method SplitFeatureList(o0: seq<int>, b0: seq<int>, head: int, ghost xs: seq<int>,
                          split: seq<int>, start: int, stop: int)
    returns (o: seq<int>, b: seq<int>, hl: int, hr: int)
    requires BlockIndexed(o0, b0, head, xs, start, stop) && |split| == stop - start
    ensures SplitFeature(o0, b0, o, b, hl, hr, xs, split, start, stop)
  {
    o, b, hl, hr := SplitList(o0, b0, head, xs, split, start);
    SplitPartitions(o0, b0, head, xs, split, start, stop, o, b, hl, hr);
  }

  /** The first loop of `MatrixPartition` over all features: each ordinal
    * feature's list is split by side; a nominal feature (one without a
    * list) is left alone and has no heads (-1). */
  method SplitLists(order: seq<seq<int>>, back: seq<seq<int>>, firsts: seq<int>, ghost lists: seq<seq<int>>,
                    split: seq<int>, start: int, stop: int)
    returns (order2: seq<seq<int>>, back2: seq<seq<int>>, firstsL: seq<int>, firstsR: seq<int>)
    requires |order| == |back| == |firsts| == |lists| && |split| == stop - start
    requires forall f :: 0 <= f < |order| && |order[f]| > 0 ==>
      BlockIndexed(order[f], back[f], firsts[f], lists[f], start, stop)
    ensures |order2| == |back2| == |firstsL| == |firstsR| == |order|
    ensures forall f :: 0 <= f < |order| && |order[f]| > 0 ==>
      SplitFeature(order[f], back[f], order2[f], back2[f], firstsL[f], firstsR[f], lists[f], split, start, stop)
    ensures forall f :: 0 <= f < |order| && |order[f]| == 0 ==>
      order2[f] == order[f] && back2[f] == back[f] && firstsL[f] == -1 && firstsR[f] == -1
  {
    order2, back2 := order, back;
    firstsL, firstsR := seq(|order|, f => -1), seq(|order|, f => -1);
    var i := 0;
    while i < |order|
      invariant 0 <= i <= |order| && |order2| == |back2| == |firstsL| == |firstsR| == |order|
      invariant forall f :: 0 <= f < i && |order[f]| > 0 ==>
        SplitFeature(order[f], back[f], order2[f], back2[f], firstsL[f], firstsR[f], lists[f], split, start, stop)
      invariant forall f :: 0 <= f < |order| && (i <= f || |order[f]| == 0) ==>
        order2[f] == order[f] && back2[f] == back[f] && firstsL[f] == -1 && firstsR[f] == -1
    {
      if |order[i]| > 0 {
        var o, b, hl, hr := SplitFeatureList(order[i], back[i], firsts[i], lists[i], split, start, stop);
        order2, back2 := order2[i := o], back2[i := b];
        firstsL, firstsR := firstsL[i := hl], firstsR[i := hr];
      }
      i := i + 1;
    }
  }

  /** The relinking loop over all features after points `l` and `r`
    * exchange places: each ordinal feature is relinked, a nominal one is
    * left alone. */
  method RelinkAll(order: seq<seq<int>>, back: seq<seq<int>>, fl: seq<int>, fr: seq<int>,
                   l: int, r: int, start: int, stop: int)
    returns (order2: seq<seq<int>>, back2: seq<seq<int>>, fl2: seq<int>, fr2: seq<int>)
    requires |order| == |back| == |fl| == |fr|
    requires forall f :: 0 <= f < |order| && |order[f]| > 0 ==>
      RelinkReady(order[f], back[f], fl[f], fr[f], l, r, start, stop)
    ensures |order2| == |back2| == |fl2| == |fr2| == |order|
    ensures forall f :: 0 <= f < |order| && |order[f]| > 0 ==>
      Relinked(order[f], back[f], fl[f], fr[f], order2[f], back2[f], fl2[f], fr2[f], l, r, start, stop)
    ensures forall f :: 0 <= f < |order| && |order[f]| == 0 ==>
      order2[f] == order[f] && back2[f] == back[f] && fl2[f] == fl[f] && fr2[f] == fr[f]
  {
    order2, back2, fl2, fr2 := order, back, fl, fr;
    var i := 0;
    while i < |order|
      invariant 0 <= i <= |order| && |order2| == |back2| == |fl2| == |fr2| == |order|
      invariant forall f :: 0 <= f < i && |order[f]| > 0 ==>
        Relinked(order[f], back[f], fl[f], fr[f], order2[f], back2[f], fl2[f], fr2[f], l, r, start, stop)
      invariant forall f :: 0 <= f < |order| && (i <= f || |order[f]| == 0) ==>
        order2[f] == order[f] && back2[f] == back[f] && fl2[f] == fl[f] && fr2[f] == fr[f]
    {
      if |order[i]| > 0 {
        var o, b, hl, hr := Relink(order[i], back[i], fl[i], fr[i], l, r, start, stop);
        order2, back2 := order2[i := o], back2[i := b];
        fl2, fr2 := fl2[i := hl], fr2[i := hr];
      }
      i := i + 1;
    }
  }

  // ---------------------------------------------------------------------
  // The scans of the second loop
  // ---------------------------------------------------------------------

  /** The left scan: `left` moves past the points whose split is above 0,
    * up to `right + 1`. The bound is checked first. */
  method ScanLeft(split: seq<int>, start: int, left: int, right: int) returns (left2: int)
    requires start <= left <= right + 1 && right - start < |split|
    ensures left <= left2 <= right + 1
    ensures forall k :: left - start <= k < left2 - start ==> split[k] > 0
    ensures left2 <= right ==> split[left2 - start] <= 0
  {
    left2 := left;
    while left2 <= right && split[left2 - start] > 0
      invariant left <= left2 <= right + 1
      invariant forall k :: left - start <= k < left2 - start ==> split[k] > 0
    {
      left2 := left2 + 1;
    }
  }

  /** The right scan: `right` moves down past the points whose split is
    * below 1, down to `left - 1`. */
  method ScanRight(split: seq<int>, start: int, left: int, right: int) returns (right2: int)
    requires start <= left <= right + 1 && right - start < |split|
    ensures left - 1 <= right2 <= right
    ensures forall k :: right2 - start < k <= right - start ==> split[k] < 1
    ensures right2 >= left ==> split[right2 - start] >= 1
  {
    right2 := right;
    while left <= right2 && split[right2 - start] < 1
      invariant left - 1 <= right2 <= right
      invariant forall k :: right2 - start < k <= right - start ==> split[k] < 1
    {
      right2 := right2 - 1;
    }
  }

  /** The positions of `split` the left scan reads as written, testing
    * `split[left - start] > 0` before `left <= right`: each position it
    * passes, then the one where it stops, even when that one lies past
    * `right`. */
  function LeftScanReadsAsWritten(split: seq<int>, start: int, left: int, right: int): (pos: seq<int>)
    requires start <= left <= right + 1 && right - start < |split|
    ensures pos != [] && forall i :: 0 <= i < |pos| ==> pos[i] == left - start + i
    ensures forall i :: 0 <= i < |pos| - 1 ==> 0 <= pos[i] < |split| && split[pos[i]] > 0
    decreases right + 1 - left
  {
    if left <= right && split[left - start] > 0 then
      [left - start] + LeftScanReadsAsWritten(split, start, left + 1, right)
    else
      [left - start]
  }

  /** When every point from `left` to the end of the block is bound left,
    * the scan as written ends by reading `split` one past its end. */
  lemma {:induction false} LeftScanAsWrittenOverreads(split: seq<int>, start: int, left: int)
    requires start <= left <= start + |split|
    requires forall k :: left - start <= k < |split| ==> split[k] > 0
    ensures var pos := LeftScanReadsAsWritten(split, start, left, start + |split| - 1);
      pos[|pos| - 1] == |split|
    decreases start + |split| - left
  {
    if left < start + |split| {
      LeftScanAsWrittenOverreads(split, start, left + 1);
    }
  }

  /** For instance, a block of one point bound left. */
  lemma LeftScanAsWrittenOnePoint()
    ensures LeftScanReadsAsWritten([1], 0, 0, 0) == [0, 1]
  {
    LeftScanAsWrittenOverreads([1], 0, 0);
  }

  // ---------------------------------------------------------------------
  // Where the points go
  // ---------------------------------------------------------------------

  /** `at` places the points of the block: the point that was at
    * `start + k` is now at `at[k]`, each at a place of its own. */
  ghost predicate Placement(at: seq<int>, start: int, stop: int)
  {
    |at| == stop - start && InBlock(at, start, stop) && Distinct(at)
  }

  /** The entries of `s0` moved with the points: entry `start + k` is now
    * at `at[k]`, and outside the block nothing moved. */
  ghost predicate Moved<T>(s0: seq<T>, s: seq<T>, at: seq<int>, start: int, stop: int)
  {
    |s| == |s0| && 0 <= start <= stop <= |s| && |at| == stop - start && InBlock(at, start, stop) &&
    (forall k :: 0 <= k < |at| ==> s[at[k]] == s0[start + k]) &&
    (forall x :: 0 <= x < |s| && !(start <= x < stop) ==> s[x] == s0[x])
  }

  /** The same for a vector indexed from `start`, such as `split`. */
  ghost predicate MovedInBlock(s0: seq<int>, s: seq<int>, at: seq<int>, start: int)
  {
    |s| == |s0| == |at| && InBlock(at, start, start + |s|) &&
    forall k :: 0 <= k < |at| ==> s[at[k] - start] == s0[k]
  }

  /** The list `xs` of points, each at its new place. */
  function Track(at: seq<int>, start: int, xs: seq<int>): (ys: seq<int>)
    requires InBlock(xs, start, start + |at|)
    ensures |ys| == |xs| && forall k :: 0 <= k < |xs| ==> ys[k] == at[xs[k] - start]
  {
    seq(|xs|, k requires 0 <= k < |xs| => at[xs[k] - start])
  }

  /** Every point in its own place. */
  function Stay(start: int, stop: int): (at: seq<int>)
    requires start <= stop
    ensures Placement(at, start, stop) && forall k :: 0 <= k < |at| ==> at[k] == start + k
  {
    seq(stop - start, k => start + k)
  }

  lemma StayTrack(start: int, stop: int, xs: seq<int>)
    requires start <= stop && InBlock(xs, start, stop)
    ensures Track(Stay(start, stop), start, xs) == xs
  {
  }

  /** Exchanging the places of `l` and `r` keeps a placement. */
  lemma PlacementSwap(at: seq<int>, start: int, stop: int, l: int, r: int)
    requires Placement(at, start, stop) && start <= l < r < stop
    ensures Placement(Rename(at, l, r), start, stop)
  {
    DistinctRename(at, l, r);
  }

  /** Exchanging entries `l` and `r` follows the exchange of the points. */
  lemma MovedSwap<T>(s0: seq<T>, s: seq<T>, at: seq<int>, start: int, stop: int, l: int, r: int)
    requires Moved(s0, s, at, start, stop) && start <= l < r < stop
    ensures Moved(s0, SwapAt(s, l, r), Rename(at, l, r), start, stop)
  {
    var s2, at2 := SwapAt(s, l, r), Rename(at, l, r);
    forall k | 0 <= k < |at2|
      ensures s2[at2[k]] == s0[start + k]
    {
      assert s2[Sw(at[k], l, r)] == s[at[k]];
    }
  }

  lemma MovedInBlockSwap(s0: seq<int>, s: seq<int>, at: seq<int>, start: int, l: int, r: int)
    requires MovedInBlock(s0, s, at, start) && start <= l < r < start + |s|
    ensures MovedInBlock(s0, SwapAt(s, l - start, r - start), Rename(at, l, r), start)
  {
    var s2, at2 := SwapAt(s, l - start, r - start), Rename(at, l, r);
    forall k | 0 <= k < |at2|
      ensures s2[at2[k] - start] == s0[k]
    {
      assert s2[Sw(at[k], l, r) - start] == s[at[k] - start];
    }
  }

  lemma TrackSwap(at: seq<int>, start: int, xs: seq<int>, l: int, r: int)
    requires InBlock(xs, start, start + |at|)
    ensures Track(Rename(at, l, r), start, xs) == Rename(Track(at, start, xs), l, r)
  {
  }

  // ---------------------------------------------------------------------
  // The state of the second loop
  // ---------------------------------------------------------------------

  /** One ordinal feature through the second loop: the sides `ls0` and
    * `rs0` of its list, each point at its new place, are its two lists
    * under the current split `sp`, and outside the block its links are
    * those of `o0` and `b0`. */
  ghost predicate Tracked(o0: seq<int>, b0: seq<int>, o: seq<int>, b: seq<int>, hl: int, hr: int,
                          ls0: seq<int>, rs0: seq<int>, sp: seq<int>, at: seq<int>, start: int, stop: int)
  {
    Placement(at, start, stop) && InBlock(ls0, start, stop) && InBlock(rs0, start, stop) &&
    Partitioned(o, b, hl, hr, Track(at, start, ls0), Track(at, start, rs0), sp, start, stop) &&
    Unmoved(o0, b0, o, b, start, stop)
  }

  /** Exchanging points `l` and `r` keeps the state of a feature. */
  lemma TrackedSwap(o0: seq<int>, b0: seq<int>, o: seq<int>, b: seq<int>, hl: int, hr: int,
                    ls0: seq<int>, rs0: seq<int>, sp: seq<int>, at: seq<int>, start: int, stop: int,
                    l: int, r: int, o2: seq<int>, b2: seq<int>, hl2: int, hr2: int)
    requires Tracked(o0, b0, o, b, hl, hr, ls0, rs0, sp, at, start, stop) && start <= l < r < stop
    requires Relinked(o, b, hl, hr, o2, b2, hl2, hr2, l, r, start, stop)
    ensures Tracked(o0, b0, o2, b2, hl2, hr2, ls0, rs0, SwapAt(sp, l - start, r - start), Rename(at, l, r), start, stop)
  {
    PartitionedSwap(o, b, hl, hr, Track(at, start, ls0), Track(at, start, rs0), sp, start, stop, l, r, o2, b2, hl2, hr2);
    TrackSwap(at, start, ls0, l, r);
    TrackSwap(at, start, rs0, l, r);
    PlacementSwap(at, start, stop, l, r);
  }

  /** Exchanging the places of `l` and `r` in every feature moves a data
    * matrix with the points. */
  function SwapColumns<T>(m: seq<seq<T>>, l: int, r: int): (m2: seq<seq<T>>)
    requires 0 <= l && 0 <= r && forall d :: 0 <= d < |m| ==> l < |m[d]| && r < |m[d]|
    ensures |m2| == |m| && forall d :: 0 <= d < |m| ==> m2[d] == SwapAt(m[d], l, r)
  {
    seq(|m|, d requires 0 <= d < |m| => SwapAt(m[d], l, r))
  }

  /** Every feature of the matrix `m0` moved with the points into `m`. */
  ghost predicate MatrixMoved<T>(m0: seq<seq<T>>, m: seq<seq<T>>, at: seq<int>, start: int, stop: int)
  {
    |m| == |m0| && forall d :: 0 <= d < |m| ==> Moved(m0[d], m[d], at, start, stop)
  }

  lemma MatrixSwap<T>(m0: seq<seq<T>>, m: seq<seq<T>>, at: seq<int>, start: int, stop: int, l: int, r: int)
    requires MatrixMoved(m0, m, at, start, stop) && 0 <= start <= l < r < stop
    ensures MatrixMoved(m0, SwapColumns(m, l, r), Rename(at, l, r), start, stop)
  {
    forall d | 0 <= d < |m|
      ensures Moved(m0[d], SwapColumns(m, l, r)[d], Rename(at, l, r), start, stop)
    {
      MovedSwap(m0[d], m[d], at, start, stop, l, r);
    }
  }

  /** The second loop's split: 0 or 1 everywhere, 1 before `left`, 0 after
    * `right`, and it is the original split with each point at its place. */
  ghost predicate ScanState(sp: seq<int>, split: seq<int>, at: seq<int>, start: int, stop: int, left: int, right: int)
  {
    0 <= start <= left <= right + 1 <= stop && |sp| == stop - start &&
    (forall k :: 0 <= k < |sp| ==> sp[k] == 0 || sp[k] == 1) &&
    (forall k :: 0 <= k < left - start ==> sp[k] == 1) &&
    (forall k :: right - start < k < |sp| ==> sp[k] == 0) &&
    Placement(at, start, stop) && MovedInBlock(split, sp, at, start)
  }

  /** Swapping a point bound right at `left` with a point bound left at
    * `right` extends both ends. */
  lemma ScanSwap(sp: seq<int>, split: seq<int>, at: seq<int>, start: int, stop: int, left: int, right: int)
    requires ScanState(sp, split, at, start, stop, left, right) && left < right
    requires sp[left - start] == 0 && sp[right - start] == 1
    ensures ScanState(SwapAt(sp, left - start, right - start), split, Rename(at, left, right), start, stop, left, right - 1)
  {
    PlacementSwap(at, start, stop, left, right);
    MovedInBlockSwap(split, sp, at, start, left, right);
  }

  /** When the scans cross, the points of [start, left) are exactly those
    * whose original split is 1. */
  lemma ScanDone(sp: seq<int>, split: seq<int>, at: seq<int>, start: int, stop: int, left: int, right: int)
    requires ScanState(sp, split, at, start, stop, left, right) && left > right
    ensures forall k :: 0 <= k < left - start ==> sp[k] == 1
    ensures forall k :: left - start <= k < |sp| ==> sp[k] != 1
    ensures forall k :: 0 <= k < |at| ==> (at[k] < left <==> split[k] == 1)
  {
    forall k | 0 <= k < |at|
      ensures at[k] < left <==> split[k] == 1
    {
      assert sp[at[k] - start] == split[k];
    }
  }

  /** All features through the second loop: each ordinal feature (one with
    * a list in `order0`) is tracked, each nominal one is left alone with no
    * heads. */
  ghost predicate AllTracked(order0: seq<seq<int>>, back0: seq<seq<int>>, order: seq<seq<int>>, back: seq<seq<int>>,
                             fl: seq<int>, fr: seq<int>, lists: seq<seq<int>>, split: seq<int>,
                             sp: seq<int>, at: seq<int>, start: int, stop: int)
  {
    |order| == |back| == |fl| == |fr| == |order0| == |back0| == |lists| &&
    |sp| == |split| == stop - start && Placement(at, start, stop) &&
    (forall f :: 0 <= f < |order0| && |order0[f]| > 0 ==>
      InBlock(lists[f], start, start + |split|) &&
      Tracked(order0[f], back0[f], order[f], back[f], fl[f], fr[f],
              Side(lists[f], split, start, true), Side(lists[f], split, start, false), sp, at, start, stop)) &&
    (forall f :: 0 <= f < |order0| && |order0[f]| == 0 ==>
      order[f] == order0[f] && back[f] == back0[f] && fl[f] == -1 && fr[f] == -1)
  }

  /** The first phase starts the second loop's state, no point moved yet. */
  lemma AllTrackedStart(order0: seq<seq<int>>, back0: seq<seq<int>>, order: seq<seq<int>>, back: seq<seq<int>>,
                        fl: seq<int>, fr: seq<int>, lists: seq<seq<int>>, split: seq<int>, start: int, stop: int)
    requires |order| == |back| == |fl| == |fr| == |order0| == |back0| == |lists| && |split| == stop - start
    requires forall f :: 0 <= f < |order0| && |order0[f]| > 0 ==>
      SplitFeature(order0[f], back0[f], order[f], back[f], fl[f], fr[f], lists[f], split, start, stop)
    requires forall f :: 0 <= f < |order0| && |order0[f]| == 0 ==>
      order[f] == order0[f] && back[f] == back0[f] && fl[f] == -1 && fr[f] == -1
    ensures AllTracked(order0, back0, order, back, fl, fr, lists, split, split, Stay(start, stop), start, stop)
  {
    forall f | 0 <= f < |order0| && |order0[f]| > 0
      ensures Tracked(order0[f], back0[f], order[f], back[f], fl[f], fr[f],
                      Side(lists[f], split, start, true), Side(lists[f], split, start, false),
                      split, Stay(start, stop), start, stop)
    {
      StayTrack(start, stop, Side(lists[f], split, start, true));
      StayTrack(start, stop, Side(lists[f], split, start, false));
    }
  }

  /** Every ordinal feature can be relinked for a point `l` bound right
    * and a point `r` bound left. */
  lemma AllReady(order0: seq<seq<int>>, back0: seq<seq<int>>, order: seq<seq<int>>, back: seq<seq<int>>,
                 fl: seq<int>, fr: seq<int>, lists: seq<seq<int>>, split: seq<int>,
                 sp: seq<int>, at: seq<int>, start: int, stop: int, l: int, r: int)
    requires AllTracked(order0, back0, order, back, fl, fr, lists, split, sp, at, start, stop)
    requires start <= l < r < stop && sp[l - start] != 1 && sp[r - start] == 1
    ensures forall f :: 0 <= f < |order| && |order[f]| > 0 ==>
      RelinkReady(order[f], back[f], fl[f], fr[f], l, r, start, stop)
  {
    forall f | 0 <= f < |order| && |order[f]| > 0
      ensures RelinkReady(order[f], back[f], fl[f], fr[f], l, r, start, stop)
    {
      var ls0, rs0 := Side(lists[f], split, start, true), Side(lists[f], split, start, false);
      PartitionedReady(order[f], back[f], fl[f], fr[f], Track(at, start, ls0), Track(at, start, rs0),
                       sp, start, stop, l, r);
    }
  }

  /** Relinking every feature after swapping `l` and `r` keeps the state. */
  lemma AllTrackedSwap(order0: seq<seq<int>>, back0: seq<seq<int>>, order: seq<seq<int>>, back: seq<seq<int>>,
                       fl: seq<int>, fr: seq<int>, lists: seq<seq<int>>, split: seq<int>,
                       sp: seq<int>, at: seq<int>, start: int, stop: int, l: int, r: int,
                       order2: seq<seq<int>>, back2: seq<seq<int>>, fl2: seq<int>, fr2: seq<int>)
    requires AllTracked(order0, back0, order, back, fl, fr, lists, split, sp, at, start, stop)
    requires start <= l < r < stop
    requires |order2| == |back2| == |fl2| == |fr2| == |order|
    requires forall f :: 0 <= f < |order| && |order[f]| > 0 ==>
      Relinked(order[f], back[f], fl[f], fr[f], order2[f], back2[f], fl2[f], fr2[f], l, r, start, stop)
    requires forall f :: 0 <= f < |order| && |order[f]| == 0 ==>
      order2[f] == order[f] && back2[f] == back[f] && fl2[f] == fl[f] && fr2[f] == fr[f]
    ensures AllTracked(order0, back0, order2, back2, fl2, fr2, lists, split,
                       SwapAt(sp, l - start, r - start), Rename(at, l, r), start, stop)
  {
    forall f | 0 <= f < |order0| && |order0[f]| > 0
      ensures Tracked(order0[f], back0[f], order2[f], back2[f], fl2[f], fr2[f],
                      Side(lists[f], split, start, true), Side(lists[f], split, start, false),
                      SwapAt(sp, l - start, r - start), Rename(at, l, r), start, stop)
    {
      TrackedSwap(order0[f], back0[f], order[f], back[f], fl[f], fr[f],
                  Side(lists[f], split, start, true), Side(lists[f], split, start, false),
                  sp, at, start, stop, l, r, order2[f], back2[f], fl2[f], fr2[f]);
    }
    PlacementSwap(at, start, stop, l, r);
  }

  /** One ordinal feature after `MatrixPartition`: the left side of its
    * list `xs`, each point at its new place, indexes [start, left) from
    * `hl`; the right side indexes [left, stop) from `hr`; outside the block
    * the links are those of `o0` and `b0`. */
  ghost predicate PartitionedFeature(o0: seq<int>, b0: seq<int>, o: seq<int>, b: seq<int>, hl: int, hr: int,
                                     xs: seq<int>, split: seq<int>, at: seq<int>, start: int, left: int, stop: int)
  {
    InBlock(xs, start, start + |split|) && |at| == |split| &&
    BlockIndexed(o, b, hl, Track(at, start, Side(xs, split, start, true)), start, left) &&
    BlockIndexed(o, b, hr, Track(at, start, Side(xs, split, start, false)), left, stop) &&
    Unmoved(o0, b0, o, b, start, stop)
  }

  /** When the scans cross, every ordinal feature is partitioned. */
  lemma AllPartitioned(order0: seq<seq<int>>, back0: seq<seq<int>>, order: seq<seq<int>>, back: seq<seq<int>>,
                       fl: seq<int>, fr: seq<int>, lists: seq<seq<int>>, split: seq<int>,
                       sp: seq<int>, at: seq<int>, start: int, left: int, stop: int)
    requires AllTracked(order0, back0, order, back, fl, fr, lists, split, sp, at, start, stop)
    requires start <= left <= stop && |sp| == stop - start
    requires forall k :: 0 <= k < left - start ==> sp[k] == 1
    requires forall k :: left - start <= k < |sp| ==> sp[k] != 1
    ensures forall f :: 0 <= f < |order0| && |order0[f]| > 0 ==>
      PartitionedFeature(order0[f], back0[f], order[f], back[f], fl[f], fr[f], lists[f], split, at, start, left, stop)
  {
    forall f | 0 <= f < |order0| && |order0[f]| > 0
      ensures PartitionedFeature(order0[f], back0[f], order[f], back[f], fl[f], fr[f], lists[f], split, at, start, left, stop)
    {
      FeaturePartitioned(order0[f], back0[f], order[f], back[f], fl[f], fr[f], lists[f], split, sp, at, start, left, stop);
    }
  }

  lemma FeaturePartitioned(o0: seq<int>, b0: seq<int>, o: seq<int>, b: seq<int>, hl: int, hr: int,
                           xs: seq<int>, split: seq<int>, sp: seq<int>, at: seq<int>, start: int, left: int, stop: int)
    requires InBlock(xs, start, start + |split|) && |split| == |sp|
    requires Tracked(o0, b0, o, b, hl, hr, Side(xs, split, start, true), Side(xs, split, start, false), sp, at, start, stop)
    requires start <= left <= stop && |sp| == stop - start
    requires forall k :: 0 <= k < left - start ==> sp[k] == 1
    requires forall k :: left - start <= k < |sp| ==> sp[k] != 1
    ensures PartitionedFeature(o0, b0, o, b, hl, hr, xs, split, at, start, left, stop)
  {
    var ls0, rs0 := Side(xs, split, start, true), Side(xs, split, start, false);
    PartitionedHalves(o, b, hl, hr, Track(at, start, ls0), Track(at, start, rs0), sp, start, left, stop);
  }

  /** Nothing has moved yet. */
  lemma StayMoved<T>(s: seq<T>, start: int, stop: int)
    requires 0 <= start <= stop <= |s|
    ensures Moved(s, s, Stay(start, stop), start, stop)
  {
    var at := Stay(start, stop);
    forall k | 0 <= k < |at|
      ensures s[at[k]] == s[start + k]
    {
    }
  }

  /** The state of `MatrixPartition`'s second loop: the scan positions, the
    * data matrix `m` moved from `m0`, and every feature's lists. */
  ghost predicate SwapLoop<T>(m0: seq<seq<T>>, order0: seq<seq<int>>, back0: seq<seq<int>>,
                              lists: seq<seq<int>>, split: seq<int>, start: int, stop: int,
                              m: seq<seq<T>>, sp: seq<int>, order: seq<seq<int>>, back: seq<seq<int>>,
                              fl: seq<int>, fr: seq<int>, at: seq<int>, left: int, right: int)
  {
    ScanState(sp, split, at, start, stop, left, right) &&
    MatrixMoved(m0, m, at, start, stop) &&
    AllTracked(order0, back0, order, back, fl, fr, lists, split, sp, at, start, stop)
  }

  /** The first phase's result starts the second loop. */
  lemma SwapLoopStart<T>(m0: seq<seq<T>>, order0: seq<seq<int>>, back0: seq<seq<int>>,
                         lists: seq<seq<int>>, split: seq<int>, start: int, stop: int,
                         order: seq<seq<int>>, back: seq<seq<int>>, fl: seq<int>, fr: seq<int>)
    requires 0 <= start <= stop && forall d :: 0 <= d < |m0| ==> stop <= |m0[d]|
    requires |split| == stop - start && forall k :: 0 <= k < |split| ==> split[k] == 0 || split[k] == 1
    requires |order| == |back| == |fl| == |fr| == |order0| == |back0| == |lists|
    requires forall f :: 0 <= f < |order0| && |order0[f]| > 0 ==>
      SplitFeature(order0[f], back0[f], order[f], back[f], fl[f], fr[f], lists[f], split, start, stop)
    requires forall f :: 0 <= f < |order0| && |order0[f]| == 0 ==>
      order[f] == order0[f] && back[f] == back0[f] && fl[f] == -1 && fr[f] == -1
    ensures SwapLoop(m0, order0, back0, lists, split, start, stop,
                     m0, split, order, back, fl, fr, Stay(start, stop), start, stop - 1)
  {
    var at := Stay(start, stop);
    forall d | 0 <= d < |m0|
      ensures Moved(m0[d], m0[d], at, start, stop)
    {
      StayMoved(m0[d], start, stop);
    }
    AllTrackedStart(order0, back0, order, back, fl, fr, lists, split, start, stop);
  }

  /** The two scans keep the split's state at their new positions. */
  lemma ScanMoves(sp: seq<int>, split: seq<int>, at: seq<int>, start: int, stop: int,
                  left: int, right: int, left2: int, right2: int)
    requires ScanState(sp, split, at, start, stop, left, right)
    requires left <= left2 <= right + 1 && forall k :: left - start <= k < left2 - start ==> sp[k] > 0
    requires left2 - 1 <= right2 <= right && forall k :: right2 - start < k <= right - start ==> sp[k] < 1
    ensures ScanState(sp, split, at, start, stop, left2, right2)
  {
  }

  /** After the scans, a point at `left` bound right and one at `right`
    * bound left can be swapped in every feature. */
  lemma SwapLoopReady<T>(m0: seq<seq<T>>, order0: seq<seq<int>>, back0: seq<seq<int>>,
                         lists: seq<seq<int>>, split: seq<int>, start: int, stop: int,
                         m: seq<seq<T>>, sp: seq<int>, order: seq<seq<int>>, back: seq<seq<int>>,
                         fl: seq<int>, fr: seq<int>, at: seq<int>, left: int, right: int)
    requires SwapLoop(m0, order0, back0, lists, split, start, stop, m, sp, order, back, fl, fr, at, left, right)
    requires left <= right && sp[left - start] <= 0 && sp[right - start] >= 1
    ensures left < right && sp[left - start] == 0 && sp[right - start] == 1
    ensures 0 <= left && forall d :: 0 <= d < |m| ==> right < |m[d]|
    ensures forall f :: 0 <= f < |order| && |order[f]| > 0 ==>
      RelinkReady(order[f], back[f], fl[f], fr[f], left, right, start, stop)
  {
    MatrixColumns(m0, m, at, start, stop);
    AllReady(order0, back0, order, back, fl, fr, lists, split, sp, at, start, stop, left, right);
  }

  lemma MatrixColumns<T>(m0: seq<seq<T>>, m: seq<seq<T>>, at: seq<int>, start: int, stop: int)
    requires MatrixMoved(m0, m, at, start, stop)
    ensures forall d :: 0 <= d < |m| ==> 0 <= start <= stop <= |m[d]|
  {
    forall d | 0 <= d < |m|
      ensures stop <= |m[d]|
    {
      MovedBlock(m0[d], m[d], at, start, stop);
    }
    if |m| > 0 {
      MovedBlock(m0[0], m[0], at, start, stop);
    }
  }

  /** A moved column still holds the block. */
  lemma MovedBlock<T>(s0: seq<T>, s: seq<T>, at: seq<int>, start: int, stop: int)
    requires Moved(s0, s, at, start, stop)
    ensures 0 <= start <= stop <= |s|
  {
  }

  /** One swap keeps the loop's state, with `right` one step lower. */
  lemma SwapLoopStep<T>(m0: seq<seq<T>>, order0: seq<seq<int>>, back0: seq<seq<int>>,
                        lists: seq<seq<int>>, split: seq<int>, start: int, stop: int,
                        m: seq<seq<T>>, sp: seq<int>, order: seq<seq<int>>, back: seq<seq<int>>,
                        fl: seq<int>, fr: seq<int>, at: seq<int>, left: int, right: int,
                        order2: seq<seq<int>>, back2: seq<seq<int>>, fl2: seq<int>, fr2: seq<int>)
    requires SwapLoop(m0, order0, back0, lists, split, start, stop, m, sp, order, back, fl, fr, at, left, right)
    requires left < right && sp[left - start] == 0 && sp[right - start] == 1
    requires |order2| == |back2| == |fl2| == |fr2| == |order|
    requires forall f :: 0 <= f < |order| && |order[f]| > 0 ==>
      Relinked(order[f], back[f], fl[f], fr[f], order2[f], back2[f], fl2[f], fr2[f], left, right, start, stop)
    requires forall f :: 0 <= f < |order| && |order[f]| == 0 ==>
      order2[f] == order[f] && back2[f] == back[f] && fl2[f] == fl[f] && fr2[f] == fr[f]
    ensures 0 <= left && forall d :: 0 <= d < |m| ==> right < |m[d]|
    ensures SwapLoop(m0, order0, back0, lists, split, start, stop,
                     SwapColumns(m, left, right), SwapAt(sp, left - start, right - start),
                     order2, back2, fl2, fr2, Rename(at, left, right), left, right - 1)
  {
    MatrixColumns(m0, m, at, start, stop);
    ScanSwap(sp, split, at, start, stop, left, right);
    MatrixSwap(m0, m, at, start, stop, left, right);
    AllTrackedSwap(order0, back0, order, back, fl, fr, lists, split, sp, at, start, stop,
                   left, right, order2, back2, fl2, fr2);
  }

  /** When the scans cross, the points bound left fill [start, left) and
    * every ordinal feature is partitioned there. */
  lemma SwapLoopDone<T>(m0: seq<seq<T>>, order0: seq<seq<int>>, back0: seq<seq<int>>,
                        lists: seq<seq<int>>, split: seq<int>, start: int, stop: int,
                        m: seq<seq<T>>, sp: seq<int>, order: seq<seq<int>>, back: seq<seq<int>>,
                        fl: seq<int>, fr: seq<int>, at: seq<int>, left: int, right: int)
    requires SwapLoop(m0, order0, back0, lists, split, start, stop, m, sp, order, back, fl, fr, at, left, right)
    requires left > right
    ensures start <= left <= stop && Placement(at, start, stop)
    ensures forall k :: 0 <= k < |at| ==> (at[k] < left <==> split[k] == 1)
    ensures MatrixMoved(m0, m, at, start, stop)
    ensures |order| == |back| == |fl| == |fr| == |order0|
    ensures forall f :: 0 <= f < |order0| && |order0[f]| > 0 ==>
      PartitionedFeature(order0[f], back0[f], order[f], back[f], fl[f], fr[f], lists[f], split, at, start, left, stop)
    ensures forall f :: 0 <= f < |order0| && |order0[f]| == 0 ==>
      order[f] == order0[f] && back[f] == back0[f] && fl[f] == -1 && fr[f] == -1
  {
    ScanDone(sp, split, at, start, stop, left, right);
    AllPartitioned(order0, back0, order, back, fl, fr, lists, split, sp, at, start, left, stop);
  }

  /** The second loop of `MatrixPartition`: from both ends of the block,
    * `left` skips the points bound left and `right` the points bound right;
    * a point bound right at `left` and one bound left at `right` then trade
    * places in the data matrix, in `split`, in every ordinal feature's lists
    * and in `oldFromNew` when there is one, until the two scans cross. */
  method SwapPoints<T>(ghost m0: seq<seq<T>>, ghost order0: seq<seq<int>>, ghost back0: seq<seq<int>>,
                       ghost lists: seq<seq<int>>, split: seq<int>, start: int, stop: int,
                       m: seq<seq<T>>, order: seq<seq<int>>, back: seq<seq<int>>, fl: seq<int>, fr: seq<int>,
                       oldFromNew: array?<int>)
    returns (left: int, m2: seq<seq<T>>, order2: seq<seq<int>>, back2: seq<seq<int>>,
             fl2: seq<int>, fr2: seq<int>, ghost at: seq<int>)
    requires 0 <= start <= stop
    requires SwapLoop(m0, order0, back0, lists, split, start, stop,
                      m, split, order, back, fl, fr, Stay(start, stop), start, stop - 1)
    requires oldFromNew != null ==> Moved(oldFromNew[..], oldFromNew[..], Stay(start, stop), start, stop)
    modifies oldFromNew
    ensures start <= left <= stop && Placement(at, start, stop)
    ensures forall k :: 0 <= k < |at| ==> (at[k] < left <==> split[k] == 1)
    ensures MatrixMoved(m0, m2, at, start, stop)
    ensures |order2| == |back2| == |fl2| == |fr2| == |order0|
    ensures forall f :: 0 <= f < |order0| && |order0[f]| > 0 ==>
      PartitionedFeature(order0[f], back0[f], order2[f], back2[f], fl2[f], fr2[f], lists[f], split, at, start, left, stop)
    ensures forall f :: 0 <= f < |order0| && |order0[f]| == 0 ==>
      order2[f] == order0[f] && back2[f] == back0[f] && fl2[f] == -1 && fr2[f] == -1
    ensures oldFromNew != null ==> Moved(old(oldFromNew[..]), oldFromNew[..], at, start, stop)
  {
    var sp := split;
    m2, order2, back2, fl2, fr2 := m, order, back, fl, fr;
    at := Stay(start, stop);
    left := start;
    var right := stop - 1;
    while true
      invariant SwapLoop(m0, order0, back0, lists, split, start, stop, m2, sp, order2, back2, fl2, fr2, at, left, right)
      invariant oldFromNew != null ==> Moved(old(oldFromNew[..]), oldFromNew[..], at, start, stop)
      decreases right - left + 1
    {
      var left2 := ScanLeft(sp, start, left, right);
      var right2 := ScanRight(sp, start, left2, right);
      ScanMoves(sp, split, at, start, stop, left, right, left2, right2);
      left, right := left2, right2;
      if left > right {
        break;
      }
      SwapLoopReady(m0, order0, back0, lists, split, start, stop, m2, sp, order2, back2, fl2, fr2, at, left, right);
      ghost var m1, sp1, at1, o1, b1, fl1, fr1 := m2, sp, at, order2, back2, fl2, fr2;
      m2 := SwapColumns(m2, left, right);
      sp := SwapAt(sp, left - start, right - start);
      order2, back2, fl2, fr2 := RelinkAll(order2, back2, fl2, fr2, left, right, start, stop);
      SwapLoopStep(m0, order0, back0, lists, split, start, stop, m1, sp1, o1, b1, fl1, fr1, at1, left, right,
                   order2, back2, fl2, fr2);
      if oldFromNew != null {
        ghost var before := oldFromNew[..];
        MovedSwap(old(oldFromNew[..]), before, at1, start, stop, left, right);
        oldFromNew[left], oldFromNew[right] := oldFromNew[right], oldFromNew[left];
        assert oldFromNew[..] == SwapAt(before, left, right);
      }
      at := Rename(at, left, right);
      right := right - 1;
    }
    SwapLoopDone(m0, order0, back0, lists, split, start, stop, m2, sp, order2, back2, fl2, fr2, at, left, right);
  }
}
