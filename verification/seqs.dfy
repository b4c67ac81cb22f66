/** Order-preserving selection from a sequence, the shape of JavaScript's
    `Array.prototype.filter`. */
module Seqs {

  /** The elements of `xs` that satisfy `keep`, in their original order. */
  function Select<T(!new)>(xs: seq<T>, keep: T -> bool): (r: seq<T>)
    ensures |r| <= |xs|
    ensures forall x :: x in r <==> x in xs && keep(x)
    decreases |xs|
  {
    if |xs| == 0 then
      []
    else if keep(xs[0]) then
      [xs[0]] + Select(xs[1..], keep)
    else
      Select(xs[1..], keep)
  }

  /** `idx` lists, in increasing order, the positions of `xs` that make up `r`. */
  ghost predicate SubsequenceVia<T>(r: seq<T>, xs: seq<T>, idx: seq<int>) {
    && |idx| == |r|
    && (forall k :: 0 <= k < |idx| ==> 0 <= idx[k] < |xs| && r[k] == xs[idx[k]])
    && (forall j, k :: 0 <= j < k < |idx| ==> idx[j] < idx[k])
  }

  /** `r` is `xs` with some entries dropped and the rest kept in order. */
  ghost predicate IsSubsequence<T>(r: seq<T>, xs: seq<T>) {
    exists idx :: SubsequenceVia(r, xs, idx)
  }

  /** The identity positions show that a sequence is a subsequence of itself. */
  lemma AllPositions<T>(xs: seq<T>) returns (idx: seq<int>)
    ensures SubsequenceVia(xs, xs, idx)
    ensures forall i :: 0 <= i < |xs| ==> i in idx
  {
    idx := seq(|xs|, k requires 0 <= k < |xs| => k);
    forall i | 0 <= i < |xs|
      ensures i in idx
    {
      assert idx[i] == i;
    }
  }

  /** `Select` keeps exactly the positions whose element satisfies `keep`, in
      increasing order: `idx` are those positions. */
  lemma {:induction false} SelectPositions<T(!new)>(xs: seq<T>, keep: T -> bool) returns (idx: seq<int>)
    ensures SubsequenceVia(Select(xs, keep), xs, idx)
    ensures forall i :: 0 <= i < |xs| ==> (i in idx <==> keep(xs[i]))
    decreases |xs|
  {
    if |xs| == 0 {
      idx := [];
    } else {
      var rest := SelectPositions(xs[1..], keep);
      var shifted := ShiftPositions(xs, keep, rest);
      if keep(xs[0]) {
        idx := [0] + shifted;
        assert Select(xs, keep) == [xs[0]] + Select(xs[1..], keep);
        PrependPosition(xs, Select(xs[1..], keep), shifted);
        PrependMembership(shifted);
      } else {
        idx := shifted;
      }
    }
  }

  /** Every position moved one place to the right. */
  function Shift(idx: seq<int>): (r: seq<int>)
    ensures |r| == |idx|
  {
    seq(|idx|, k requires 0 <= k < |idx| => idx[k] + 1)
  }

  lemma ShiftMembership(idx: seq<int>)
    ensures forall i :: i in Shift(idx) <==> i - 1 in idx
  {
    var r := Shift(idx);
    forall i
      ensures i in r <==> i - 1 in idx
    {
      if i - 1 in idx {
        var k :| 0 <= k < |idx| && idx[k] == i - 1;
        assert r[k] == i;
      }
      if i in r {
        var k :| 0 <= k < |r| && r[k] == i;
        assert idx[k] == i - 1;
      }
    }
  }

  /** The tail's positions, moved one place right, are positions of `xs`. */
  lemma ShiftPositions<T(!new)>(xs: seq<T>, keep: T -> bool, rest: seq<int>) returns (shifted: seq<int>)
    requires |xs| > 0
    requires SubsequenceVia(Select(xs[1..], keep), xs[1..], rest)
    requires forall i :: 0 <= i < |xs| - 1 ==> (i in rest <==> keep(xs[1..][i]))
    ensures SubsequenceVia(Select(xs[1..], keep), xs, shifted)
    ensures forall i :: 1 <= i < |xs| ==> (i in shifted <==> keep(xs[i]))
    ensures forall k :: 0 <= k < |shifted| ==> shifted[k] >= 1
  {
    shifted := Shift(rest);
    ShiftedSubsequence(xs, Select(xs[1..], keep), rest);
    ShiftMembership(rest);
    forall i | 1 <= i < |xs|
      ensures i in shifted <==> keep(xs[i])
    {
      assert xs[i] == xs[1..][i - 1];
    }
  }

  lemma ShiftedSubsequence<T>(xs: seq<T>, r: seq<T>, rest: seq<int>)
    requires |xs| > 0
    requires SubsequenceVia(r, xs[1..], rest)
    ensures SubsequenceVia(r, xs, Shift(rest))
    ensures forall k :: 0 <= k < |rest| ==> Shift(rest)[k] >= 1
  {
    var shifted := Shift(rest);
    forall k | 0 <= k < |shifted|
      ensures 1 <= shifted[k] < |xs| && r[k] == xs[shifted[k]]
    {
      assert xs[shifted[k]] == xs[1..][rest[k]];
    }
  }

  /** Putting the head of `xs` in front of a subsequence of `xs` that uses
      only later positions puts position 0 in front of its positions. */
  lemma PrependPosition<T>(xs: seq<T>, r: seq<T>, shifted: seq<int>)
    requires |xs| > 0
    requires SubsequenceVia(r, xs, shifted)
    requires forall k :: 0 <= k < |shifted| ==> shifted[k] >= 1
    ensures SubsequenceVia([xs[0]] + r, xs, [0] + shifted)
  {
    var idx := [0] + shifted;
    var r' := [xs[0]] + r;
    forall k | 0 < k < |idx|
      ensures 0 <= idx[k] < |xs| && r'[k] == xs[idx[k]]
    {
      assert idx[k] == shifted[k - 1] && r'[k] == r[k - 1];
    }
    forall j, k | 0 <= j < k < |idx|
      ensures idx[j] < idx[k]
    {
      assert idx[k] == shifted[k - 1];
    }
  }

  lemma PrependMembership(shifted: seq<int>)
    ensures forall i :: i in [0] + shifted <==> i == 0 || i in shifted
  {
  }
}
