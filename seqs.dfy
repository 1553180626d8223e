/** `Array.prototype.filter` over sequences, with the facts the pages rely on. */
module Seqs {

  function Filter<T>(xs: seq<T>, keep: T -> bool): seq<T>
  {
    if xs == [] then []
    else (if keep(xs[0]) then [xs[0]] else []) + Filter(xs[1..], keep)
  }

  function Shift(ps: seq<nat>): (r: seq<nat>)
  {
    seq(|ps|, k requires 0 <= k < |ps| => ps[k] + 1)
  }

  /** The positions of xs whose elements pass the test, in increasing order. */
  function Positions<T>(xs: seq<T>, keep: T -> bool): seq<nat>
  {
    if xs == [] then []
    else (if keep(xs[0]) then [0] else []) + Shift(Positions(xs[1..], keep))
  }

  lemma {:induction false} PositionsSelect<T>(xs: seq<T>, keep: T -> bool)
    ensures |Positions(xs, keep)| == |Filter(xs, keep)|
    ensures forall k :: 0 <= k < |Positions(xs, keep)| ==>
              Positions(xs, keep)[k] < |xs| && Filter(xs, keep)[k] == xs[Positions(xs, keep)[k]]
  {
    if xs != [] {
      var tail := xs[1..];
      PositionsSelect(tail, keep);
      var rest := Positions(tail, keep);
      var head: seq<nat> := if keep(xs[0]) then [0] else [];
      var hf := if keep(xs[0]) then [xs[0]] else [];
      assert Positions(xs, keep) == head + Shift(rest);
      assert Filter(xs, keep) == hf + Filter(tail, keep);
      forall k | 0 <= k < |rest|
        ensures Shift(rest)[k] < |xs| && Filter(tail, keep)[k] == xs[Shift(rest)[k]]
      {
        assert tail[rest[k]] == xs[rest[k] + 1];
      }
    }
  }

  lemma {:induction false} PositionsIncrease<T>(xs: seq<T>, keep: T -> bool)
    ensures forall k, l :: 0 <= k < l < |Positions(xs, keep)| ==> Positions(xs, keep)[k] < Positions(xs, keep)[l]
    ensures forall k :: 0 <= k < |Positions(xs, keep)| ==> Positions(xs, keep)[k] < |xs|
  {
    if xs != [] {
      PositionsIncrease(xs[1..], keep);
    }
  }

  lemma {:induction false} PositionsExact<T>(xs: seq<T>, keep: T -> bool)
    ensures forall i :: 0 <= i < |xs| ==> (i in Positions(xs, keep) <==> keep(xs[i]))
  {
    if xs != [] {
      var tail := xs[1..];
      PositionsExact(tail, keep);
      var rest := Positions(tail, keep);
      var shifted := Shift(rest);
      forall i | 1 <= i < |xs| ensures i in shifted <==> keep(xs[i]) {
        assert tail[i - 1] == xs[i];
        if i - 1 in rest {
          var k :| 0 <= k < |rest| && rest[k] == i - 1;
          assert shifted[k] == i;
        }
        if i in shifted {
          var k :| 0 <= k < |shifted| && shifted[k] == i;
          assert rest[k] == i - 1;
        }
      }
      assert 0 !in shifted;
    }
  }

  /**
   * The filtered sequence is xs read at the positions idx: idx is strictly
   * increasing (order is kept), and a position is in idx exactly when its
   * element passes the test (nothing passing is lost, nothing else is kept).
   */
  lemma FilterPositions<T>(xs: seq<T>, keep: T -> bool) returns (idx: seq<nat>)
    ensures |idx| == |Filter(xs, keep)|
    ensures forall k :: 0 <= k < |idx| ==> idx[k] < |xs| && Filter(xs, keep)[k] == xs[idx[k]]
    ensures forall k, l :: 0 <= k < l < |idx| ==> idx[k] < idx[l]
    ensures forall i :: 0 <= i < |xs| ==> (i in idx <==> keep(xs[i]))
  {
    idx := Positions(xs, keep);
    PositionsSelect(xs, keep);
    PositionsIncrease(xs, keep);
    PositionsExact(xs, keep);
  }

  /** An element is in the filtered sequence exactly when it is in xs and passes. */
  lemma {:induction false} FilterMembers<T>(xs: seq<T>, keep: T -> bool)
    ensures forall x :: x in Filter(xs, keep) <==> x in xs && keep(x)
  {
    if xs != [] {
      FilterMembers(xs[1..], keep);
      assert xs == [xs[0]] + xs[1..];
    }
  }

  /** When every element passes, nothing is removed. */
  lemma {:induction false} FilterKeepsAll<T>(xs: seq<T>, keep: T -> bool)
    requires forall x :: x in xs ==> keep(x)
    ensures Filter(xs, keep) == xs
  {
    if xs != [] {
      assert xs[0] in xs;
      assert forall x :: x in xs[1..] ==> x in xs;
      FilterKeepsAll(xs[1..], keep);
      assert xs == [xs[0]] + xs[1..];
    }
  }

  /** Filtering twice with the same test is filtering once. */
  lemma {:induction false} FilterIdempotent<T>(xs: seq<T>, keep: T -> bool)
    ensures Filter(Filter(xs, keep), keep) == Filter(xs, keep)
  {
    if xs != [] {
      FilterIdempotent(xs[1..], keep);
      var f := Filter(xs, keep);
      if keep(xs[0]) {
        assert f[0] == xs[0] && f[1..] == Filter(xs[1..], keep);
      } else {
        assert f == Filter(xs[1..], keep);
      }
    }
  }
}
