/** How many elements of a sequence have a property, and what one update does to the number; sums likewise. */
module Counting {
  function Bit(b: bool): nat { if b then 1 else 0 }

  function Count<T>(s: seq<T>, p: T -> bool): nat {
    if s == [] then 0 else Count(s[..|s| - 1], p) + Bit(p(s[|s| - 1]))
  }

  lemma {:induction false} CountUpdate<T>(s: seq<T>, p: T -> bool, i: nat, x: T)
    requires i < |s|
    ensures Count(s[i := x], p) + Bit(p(s[i])) == Count(s, p) + Bit(p(x))
  {
    var last := |s| - 1;
    if i < last {
      CountUpdate(s[..last], p, i, x);
      assert s[i := x][..last] == s[..last][i := x];
    } else {
      assert s[i := x][..last] == s[..last];
    }
  }

  /** A positive count has a witness, and a witness makes the count positive. */
  lemma {:induction false} CountPositive<T>(s: seq<T>, p: T -> bool)
    ensures Count(s, p) > 0 <==> exists i :: 0 <= i < |s| && p(s[i])
    ensures Count(s, p) <= |s|
  {
    if s != [] {
      var rest := s[..|s| - 1];
      CountPositive(rest, p);
      if i :| 0 <= i < |s| && p(s[i]) {
        assert i < |rest| ==> p(rest[i]);
      }
    }
  }

  lemma {:induction false} CountNone<T>(s: seq<T>, p: T -> bool)
    requires forall i :: 0 <= i < |s| ==> !p(s[i])
    ensures Count(s, p) == 0
  {
    if s != [] { CountNone(s[..|s| - 1], p); }
  }

  /** Two witnesses make the count at least two. */
  lemma {:induction false} CountTwo<T>(s: seq<T>, p: T -> bool, i: nat, j: nat)
    requires i < j < |s| && p(s[i]) && p(s[j])
    ensures Count(s, p) >= 2
  {
    var rest := s[..|s| - 1];
    if j == |rest| {
      assert p(rest[i]);
      CountPositive(rest, p);
    } else {
      CountTwo(rest, p, i, j);
    }
  }

  function Sum<T>(s: seq<T>, f: T -> int): int {
    if s == [] then 0 else Sum(s[..|s| - 1], f) + f(s[|s| - 1])
  }

  lemma {:induction false} SumUpdate<T>(s: seq<T>, f: T -> int, i: nat, x: T)
    requires i < |s|
    ensures Sum(s[i := x], f) == Sum(s, f) - f(s[i]) + f(x)
  {
    var last := |s| - 1;
    if i < last {
      SumUpdate(s[..last], f, i, x);
      assert s[i := x][..last] == s[..last][i := x];
    } else {
      assert s[i := x][..last] == s[..last];
    }
  }

  lemma {:induction false} SumZero<T>(s: seq<T>, f: T -> int)
    requires forall i :: 0 <= i < |s| ==> f(s[i]) == 0
    ensures Sum(s, f) == 0
  {
    if s != [] { SumZero(s[..|s| - 1], f); }
  }

  lemma {:induction false} SumConstant<T>(s: seq<T>, f: T -> int, v: int)
    requires forall i :: 0 <= i < |s| ==> f(s[i]) == v
    ensures Sum(s, f) == |s| * v
  {
    if s != [] {
      SumConstant(s[..|s| - 1], f, v);
    }
  }

  lemma {:induction false} SumAtMost<T>(s: seq<T>, f: T -> int, v: int)
    requires forall i :: 0 <= i < |s| ==> f(s[i]) <= v
    ensures Sum(s, f) <= |s| * v
  {
    if s != [] {
      SumAtMost(s[..|s| - 1], f, v);
    }
  }
}
