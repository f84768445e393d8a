/**
 Counting over processes, messages and slots: the number of members of a sequence that carry a mark.
 One update law says that a step of one process changes a count by that process's own mark alone.
 */
module Counting {

  function Bit(mark: bool): nat
  {
    if mark then 1 else 0
  }

  function Count(marks: seq<bool>): (n: nat)
    ensures n <= |marks|
  {
    if marks == [] then 0 else Count(marks[..|marks| - 1]) + Bit(marks[|marks| - 1])
  }

  lemma {:induction false} CountUpdate(marks: seq<bool>, i: nat, mark: bool)
    requires i < |marks|
    ensures Count(marks[i := mark]) + Bit(marks[i]) == Count(marks) + Bit(mark)
  {
    var n := |marks| - 1;
    if i == n {
      assert marks[i := mark][..n] == marks[..n];
    } else {
      assert marks[i := mark][..n] == marks[..n][i := mark];
      CountUpdate(marks[..n], i, mark);
    }
  }

  lemma CountPush(marks: seq<bool>, mark: bool)
    ensures Count(marks + [mark]) == Count(marks) + Bit(mark)
  {
    assert (marks + [mark])[..|marks|] == marks;
  }

  lemma {:induction false} CountPop(marks: seq<bool>)
    requires marks != []
    ensures Count(marks) == Bit(marks[0]) + Count(marks[1..])
  {
    var n := |marks| - 1;
    if n > 0 {
      CountPop(marks[..n]);
      assert marks[1..][..n - 1] == marks[..n][1..];
    }
  }

  lemma {:induction false} CountNone(marks: seq<bool>)
    ensures Count(marks) == 0 <==> forall i :: 0 <= i < |marks| ==> !marks[i]
  {
    if marks != [] {
      var n := |marks| - 1;
      CountNone(marks[..n]);
      if Count(marks) == 0 {
        forall i | 0 <= i < |marks| ensures !marks[i] {
          if i < n {
            assert !marks[..n][i];
          }
        }
      } else if !marks[n] {
        var i :| 0 <= i < n && marks[..n][i];
        assert marks[i];
      }
    }
  }

  lemma {:induction false} CountAll(marks: seq<bool>)
    ensures Count(marks) == |marks| <==> forall i :: 0 <= i < |marks| ==> marks[i]
  {
    if marks != [] {
      var n := |marks| - 1;
      CountAll(marks[..n]);
      if Count(marks) == |marks| {
        forall i | 0 <= i < |marks| ensures marks[i] {
          if i < n {
            assert marks[..n][i];
          }
        }
      }
    }
  }

  lemma CountSome(marks: seq<bool>, i: nat)
    requires i < |marks| && marks[i]
    ensures Count(marks) >= 1
  {
    CountNone(marks);
  }

  /** Two marks count for two. */
  lemma CountTwo(marks: seq<bool>, i: nat, j: nat)
    requires i < j < |marks| && marks[i] && marks[j]
    ensures Count(marks) >= 2
  {
    CountUpdate(marks, i, false);
    CountSome(marks[i := false], j);
  }

  /** If no two members are marked the count is at most one. */
  lemma CountOnce(marks: seq<bool>)
    requires forall i, j :: 0 <= i < j < |marks| && marks[i] ==> !marks[j]
    ensures Count(marks) <= 1
  {
    if i :| 0 <= i < |marks| && marks[i] {
      CountUpdate(marks, i, false);
      CountNone(marks[i := false]);
    } else {
      CountNone(marks);
    }
  }

  /* ---- sums ---- */

  function Sum(xs: seq<nat>): nat {
    if xs == [] then 0 else Sum(xs[..|xs| - 1]) + xs[|xs| - 1]
  }

  lemma {:induction false} SumUpdate(xs: seq<nat>, i: nat, x: nat)
    requires i < |xs|
    ensures Sum(xs[i := x]) + xs[i] == Sum(xs) + x
  {
    var n := |xs| - 1;
    if i < n {
      SumUpdate(xs[..n], i, x);
      assert xs[i := x][..n] == xs[..n][i := x];
    } else {
      assert xs[i := x][..n] == xs[..n];
    }
  }

  lemma SumPush(xs: seq<nat>, x: nat)
    ensures Sum(xs + [x]) == Sum(xs) + x
  {
    assert (xs + [x])[..|xs|] == xs;
  }

  /** Pointwise no greater is no greater in all. */
  lemma {:induction false} SumMonotone(xs: seq<nat>, ys: seq<nat>)
    requires |xs| == |ys| && forall i :: 0 <= i < |xs| ==> xs[i] <= ys[i]
    ensures Sum(xs) <= Sum(ys)
  {
    if xs != [] {
      SumMonotone(xs[..|xs| - 1], ys[..|ys| - 1]);
    }
  }

  /** Smaller in one place besides, smaller in all. */
  lemma SumSmaller(xs: seq<nat>, ys: seq<nat>, k: nat)
    requires |xs| == |ys| && forall i :: 0 <= i < |xs| ==> xs[i] <= ys[i]
    requires k < |xs| && xs[k] < ys[k]
    ensures Sum(xs) < Sum(ys)
  {
    SumUpdate(ys, k, xs[k]);
    SumMonotone(xs, ys[k := xs[k]]);
  }
}
