/** Counting and summing over sequences, with the lemmas the state machines need
    when one element changes or one is appended. */
module Counting {

  /** How many elements of `s` satisfy `p`. */
  function Count<T>(p: T -> bool, s: seq<T>): nat {
    if s == [] then 0
    else Count(p, s[..|s| - 1]) + if p(s[|s| - 1]) then 1 else 0
  }

  function One(b: bool): nat {
    if b then 1 else 0
  }

  lemma {:induction false} CountAppend<T>(p: T -> bool, s: seq<T>, x: T)
    ensures Count(p, s + [x]) == Count(p, s) + One(p(x))
  {
    assert (s + [x])[..|s|] == s;
  }

  lemma {:induction false} CountUpdate<T>(p: T -> bool, s: seq<T>, i: nat, x: T)
    requires i < |s|
    ensures Count(p, s[i := x]) + One(p(s[i])) == Count(p, s) + One(p(x))
  {
    var n := |s| - 1;
    if i == n {
      assert s[i := x][..n] == s[..n];
    } else {
      assert s[i := x][..n] == s[..n][i := x];
      CountUpdate(p, s[..n], i, x);
    }
  }

  lemma {:induction false} CountZero<T>(p: T -> bool, s: seq<T>)
    ensures Count(p, s) == 0 <==> forall i :: 0 <= i < |s| ==> !p(s[i])
  {
    if s != [] {
      var n := |s| - 1;
      CountZero(p, s[..n]);
      assert forall i :: 0 <= i < n ==> s[..n][i] == s[i];
    }
  }

  lemma {:induction false} CountBound<T>(p: T -> bool, s: seq<T>)
    ensures Count(p, s) <= |s|
  {
    if s != [] {
      CountBound(p, s[..|s| - 1]);
    }
  }

  lemma {:induction false} CountMonotone<T>(p: T -> bool, q: T -> bool, s: seq<T>)
    requires forall i :: 0 <= i < |s| && p(s[i]) ==> q(s[i])
    ensures Count(p, s) <= Count(q, s)
  {
    if s != [] {
      var n := |s| - 1;
      assert forall i :: 0 <= i < n ==> s[..n][i] == s[i];
      CountMonotone(p, q, s[..n]);
    }
  }

  /** The sum of `f` over `s`. */
  function Sum<T>(f: T -> nat, s: seq<T>): nat {
    if s == [] then 0 else Sum(f, s[..|s| - 1]) + f(s[|s| - 1])
  }

  lemma {:induction false} SumUpdate<T>(f: T -> nat, s: seq<T>, i: nat, x: T)
    requires i < |s|
    ensures Sum(f, s[i := x]) + f(s[i]) == Sum(f, s) + f(x)
  {
    var n := |s| - 1;
    if i == n {
      assert s[i := x][..n] == s[..n];
    } else {
      assert s[i := x][..n] == s[..n][i := x];
      SumUpdate(f, s[..n], i, x);
    }
  }

  lemma {:induction false} SumMonotone<T>(f: T -> nat, g: T -> nat, s: seq<T>)
    requires forall i :: 0 <= i < |s| ==> f(s[i]) <= g(s[i])
    ensures Sum(f, s) <= Sum(g, s)
  {
    if s != [] {
      var n := |s| - 1;
      assert forall i :: 0 <= i < n ==> s[..n][i] == s[i];
      SumMonotone(f, g, s[..n]);
    }
  }

  ghost function Elements<T>(q: seq<T>): set<T> { set x | x in q }

  lemma {:induction false} DistinctSize<T>(q: seq<T>)
    requires forall i, j :: 0 <= i < j < |q| ==> q[i] != q[j]
    ensures |Elements(q)| == |q|
  {
    if |q| == 0 {
      assert Elements(q) == {};
    } else {
      var n := |q| - 1;
      DistinctSize(q[..n]);
      assert q == q[..n] + [q[n]];
      assert Elements(q) == Elements(q[..n]) + {q[n]};
    }
  }

  ghost function Positions<T>(p: T -> bool, s: seq<T>): set<int> {
    set i | 0 <= i < |s| && p(s[i])
  }

  /** Counting elements is counting the set of their positions. */
  lemma {:induction false} CountIsSize<T>(p: T -> bool, s: seq<T>)
    ensures Count(p, s) == |Positions(p, s)|
  {
    if s == [] {
      assert Positions(p, s) == {};
    } else {
      var n := |s| - 1;
      CountIsSize(p, s[..n]);
      assert forall i :: 0 <= i < n ==> s[..n][i] == s[i];
      assert Positions(p, s) == if p(s[n]) then Positions(p, s[..n]) + {n} else Positions(p, s[..n]);
    }
  }
}
