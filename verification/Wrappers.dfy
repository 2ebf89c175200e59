/** Small types, lookups and sums shared by the modules. */
module Wrappers {

  datatype Option<+T> = None | Some(value: T)

  // The position of the first element that satisfies `p`.
  function FindIndex<T>(s: seq<T>, p: T -> bool): (r: Option<nat>)
    ensures r.Some? ==> r.value < |s| && p(s[r.value])
    ensures r.None? <==> forall i :: 0 <= i < |s| ==> !p(s[i])
  {
    if s == [] then None
    else
      var last := |s| - 1;
      var before := FindIndex(s[..last], p);
      if before.Some? then before else if p(s[last]) then Some(last) else None
  }

  // Nothing before that position satisfies `p`.
  lemma {:induction false} FirstIndex<T>(s: seq<T>, p: T -> bool)
    ensures var r := FindIndex(s, p); r.Some? ==> forall i :: 0 <= i < r.value ==> !p(s[i])
  {
    if s != [] {
      var last := |s| - 1;
      FirstIndex(s[..last], p);
    }
  }

  /** Sums */

  function Sum<T>(f: T -> int, s: seq<T>): int {
    if s == [] then 0 else f(s[0]) + Sum(f, s[1..])
  }

  lemma {:induction false} SumConcat<T>(f: T -> int, s: seq<T>, t: seq<T>)
    ensures Sum(f, s + t) == Sum(f, s) + Sum(f, t)
  {
    if s == [] {
      assert s + t == t;
    } else {
      assert (s + t)[1..] == s[1..] + t;
      SumConcat(f, s[1..], t);
    }
  }

  lemma SumAppend<T>(f: T -> int, s: seq<T>, x: T)
    ensures Sum(f, s + [x]) == Sum(f, s) + f(x)
  {
    SumConcat(f, s, [x]);
  }

  lemma {:induction false} SumUpdate<T>(f: T -> int, s: seq<T>, i: nat, x: T)
    requires i < |s|
    ensures Sum(f, s[i := x]) == Sum(f, s) - f(s[i]) + f(x)
  {
    if i == 0 {
      assert s[i := x][1..] == s[1..];
    } else {
      assert s[i := x][1..] == s[1..][i - 1 := x];
      SumUpdate(f, s[1..], i - 1, x);
    }
  }

  lemma {:induction false} SumNonNegative<T>(f: T -> int, s: seq<T>)
    requires forall x :: x in s ==> f(x) >= 0
    ensures Sum(f, s) >= 0
  {
    if s != [] {
      SumNonNegative(f, s[1..]);
    }
  }
}
