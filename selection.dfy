/** `Array.prototype.filter` with a pure callback, and what it promises:
    an order-preserving selection of exactly the elements the callback keeps. */
module Selection {

  /** `idx` lists, in strictly increasing order, positions of `xs` whose
      elements, read in that order, spell exactly `ys`. */
  ghost predicate Selects<T>(idx: seq<int>, xs: seq<T>, ys: seq<T>)
  {
    && |idx| == |ys|
    && (forall k :: 0 <= k < |idx| ==> 0 <= idx[k] < |xs| && xs[idx[k]] == ys[k])
    && (forall k, l :: 0 <= k < l < |idx| ==> idx[k] < idx[l])
  }

  /** `xs.filter(keep)`: the callback is applied to each element in turn. */
  function Filter<T>(xs: seq<T>, keep: T -> bool): (r: seq<T>)
    ensures |r| <= |xs|
    ensures forall x :: x in r ==> x in xs && keep(x)
  {
    if xs == [] then []
    else (if keep(xs[0]) then [xs[0]] else []) + Filter(xs[1..], keep)
  }

  /** `idx` holds exactly the positions of `xs` whose elements `keep` keeps. */
  ghost predicate Picks<T>(idx: seq<int>, xs: seq<T>, keep: T -> bool)
  {
    forall i :: 0 <= i < |xs| ==> (i in idx <==> keep(xs[i]))
  }

  /** The result is the order-preserving subsequence of exactly the kept
      elements: position `i` of the input is picked iff `keep` holds there. */
  lemma {:induction false} FilterSelectsKept<T>(xs: seq<T>, keep: T -> bool)
    ensures exists idx :: Selects(idx, xs, Filter(xs, keep)) && Picks(idx, xs, keep)
  {
    if xs == [] {
      assert Selects([], xs, Filter(xs, keep)) && Picks([], xs, keep);
    } else {
      var tail := xs[1..];
      var r := Filter(tail, keep);
      FilterSelectsKept(tail, keep);
      var idx :| Selects(idx, tail, r) && Picks(idx, tail, keep);
      FilterCons(xs, keep);
      if keep(xs[0]) {
        PicksHeadKept(idx, xs, r, keep);
        assert Filter(xs, keep) == [xs[0]] + r;
      } else {
        PicksHeadDropped(idx, xs, r, keep);
        assert Filter(xs, keep) == r;
      }
    }
  }

  /** A kept head: position 0 goes in front of the tail's positions, shifted. */
  lemma PicksHeadKept<T>(idx: seq<int>, xs: seq<T>, r: seq<T>, keep: T -> bool)
    requires xs != [] && keep(xs[0])
    requires Selects(idx, xs[1..], r) && Picks(idx, xs[1..], keep)
    ensures Selects([0] + Shift(idx), xs, [xs[0]] + r)
    ensures Picks([0] + Shift(idx), xs, keep)
  {
    var shifted := Shift(idx);
    SelectsShift(idx, xs[1..], r, xs[0]);
    assert [xs[0]] + xs[1..] == xs;
    ShiftMembers(idx);
    SelectsPrepend(shifted, xs, r);
    forall i | 0 <= i < |xs| ensures i in [0] + shifted <==> keep(xs[i]) {
      assert i in [0] + shifted <==> i == 0 || i in shifted;
      if i > 0 {
        assert xs[i] == xs[1..][i - 1];
        assert i in shifted <==> i - 1 in idx;
      }
    }
  }

  /** A dropped head: the tail's positions, shifted. */
  lemma PicksHeadDropped<T>(idx: seq<int>, xs: seq<T>, r: seq<T>, keep: T -> bool)
    requires xs != [] && !keep(xs[0])
    requires Selects(idx, xs[1..], r) && Picks(idx, xs[1..], keep)
    ensures Selects(Shift(idx), xs, r)
    ensures Picks(Shift(idx), xs, keep)
  {
    var shifted := Shift(idx);
    SelectsShift(idx, xs[1..], r, xs[0]);
    assert [xs[0]] + xs[1..] == xs;
    ShiftMembers(idx);
    forall i | 0 <= i < |xs| ensures i in shifted <==> keep(xs[i]) {
      assert i in shifted <==> i - 1 in idx;
      if i > 0 {
        assert xs[i] == xs[1..][i - 1];
      }
    }
  }

  /** Every position moved one place to the right. */
  function Shift(idx: seq<int>): (r: seq<int>)
    ensures |r| == |idx|
    ensures forall k :: 0 <= k < |idx| ==> r[k] == idx[k] + 1
  {
    if idx == [] then [] else [idx[0] + 1] + Shift(idx[1..])
  }

  /** A selection from `xs` is, shifted, one from `[x] + xs`. */
  lemma SelectsShift<T>(idx: seq<int>, xs: seq<T>, ys: seq<T>, x: T)
    requires Selects(idx, xs, ys)
    ensures Selects(Shift(idx), [x] + xs, ys)
  {
    var s := Shift(idx);
    forall k | 0 <= k < |idx| ensures ([x] + xs)[s[k]] == ys[k] {
      assert ([x] + xs)[idx[k] + 1] == xs[idx[k]];
    }
  }

  /** `i` is a shifted position exactly when `i - 1` was a position. */
  lemma ShiftMembers(idx: seq<int>)
    ensures forall i :: i in Shift(idx) <==> i - 1 in idx
  {
    var s := Shift(idx);
    forall i ensures i in s <==> i - 1 in idx {
      if i in s {
        var k :| 0 <= k < |s| && s[k] == i;
        assert idx[k] == i - 1;
      }
      if i - 1 in idx {
        var k :| 0 <= k < |idx| && idx[k] == i - 1;
        assert s[k] == i;
      }
    }
  }

  /** Picking position 0 in front of a selection that avoids it. */
  lemma SelectsPrepend<T>(idx: seq<int>, xs: seq<T>, ys: seq<T>)
    requires xs != [] && Selects(idx, xs, ys)
    requires forall k :: 0 <= k < |idx| ==> idx[k] >= 1
    ensures Selects([0] + idx, xs, [xs[0]] + ys)
  {
  }

  /** Every kept element of the input is in the result. */
  lemma FilterKeepsEveryMatch<T>(xs: seq<T>, keep: T -> bool, i: int)
    requires 0 <= i < |xs| && keep(xs[i])
    ensures xs[i] in Filter(xs, keep)
  {
    FilterSelectsKept(xs, keep);
    var idx :| Selects(idx, xs, Filter(xs, keep)) && Picks(idx, xs, keep);
    var k :| 0 <= k < |idx| && idx[k] == i;
    assert Filter(xs, keep)[k] == xs[i];
  }

  /** Filtering the result again with the same callback changes nothing. */
  lemma {:induction false} FilterIdempotent<T>(xs: seq<T>, keep: T -> bool)
    ensures Filter(Filter(xs, keep), keep) == Filter(xs, keep)
  {
    if xs != [] {
      var r := Filter(xs[1..], keep);
      FilterIdempotent(xs[1..], keep);
      if keep(xs[0]) {
        var r' := [xs[0]] + r;
        assert r'[1..] == r;
        assert Filter(xs, keep) == r';
        assert Filter(r', keep) == [xs[0]] + Filter(r, keep);
      } else {
        assert Filter(xs, keep) == r;
      }
    }
  }

  /** A callback that keeps every element gives back the whole list. */
  lemma {:induction false} FilterKeepAll<T>(xs: seq<T>, keep: T -> bool)
    requires forall x :: x in xs ==> keep(x)
    ensures Filter(xs, keep) == xs
  {
    if xs != [] {
      assert forall x :: x in xs[1..] ==> x in xs;
      FilterKeepAll(xs[1..], keep);
      assert xs == [xs[0]] + xs[1..];
    }
  }

  /** A callback that keeps no element gives back the empty list. */
  lemma {:induction false} FilterKeepNone<T>(xs: seq<T>, keep: T -> bool)
    requires forall x :: x in xs ==> !keep(x)
    ensures Filter(xs, keep) == []
  {
    if xs != [] {
      assert forall x :: x in xs[1..] ==> x in xs;
      FilterKeepNone(xs[1..], keep);
    }
  }

  /** One element's contribution to the filter's result. */
  function Kept<T>(x: T, keep: T -> bool): (r: seq<T>)
    ensures r == [] || r == [x]
  {
    if keep(x) then [x] else []
  }

  /** Filtering a non-empty list: the head's contribution, then the tail's. */
  lemma FilterCons<T>(xs: seq<T>, keep: T -> bool)
    requires xs != []
    ensures Filter(xs, keep) == Kept(xs[0], keep) + Filter(xs[1..], keep)
  {
  }

  /** The filter over six elements, one element at a time in order. */
  lemma FilterSix<T>(xs: seq<T>, keep: T -> bool)
    requires |xs| == 6
    ensures Filter(xs, keep) ==
      Kept(xs[0], keep) + (Kept(xs[1], keep) + (Kept(xs[2], keep) +
      (Kept(xs[3], keep) + (Kept(xs[4], keep) + Kept(xs[5], keep)))))
  {
    var x1, x2, x3, x4, x5 := xs[1..], xs[2..], xs[3..], xs[4..], xs[5..];
    assert x1[1..] == x2 && x2[1..] == x3 && x3[1..] == x4 && x4[1..] == x5 && x5[1..] == [];
    assert x1[0] == xs[1] && x2[0] == xs[2] && x3[0] == xs[3] && x4[0] == xs[4] && x5[0] == xs[5];
    var f5 := Filter(x5, keep);
    FilterCons(x5, keep);
    assert f5 == Kept(xs[5], keep);
    var f4 := Filter(x4, keep);
    FilterCons(x4, keep);
    assert f4 == Kept(xs[4], keep) + f5;
    var f3 := Filter(x3, keep);
    FilterCons(x3, keep);
    assert f3 == Kept(xs[3], keep) + f4;
    var f2 := Filter(x2, keep);
    FilterCons(x2, keep);
    assert f2 == Kept(xs[2], keep) + f3;
    var f1 := Filter(x1, keep);
    FilterCons(x1, keep);
    assert f1 == Kept(xs[1], keep) + f2;
    FilterCons(xs, keep);
  }
}
