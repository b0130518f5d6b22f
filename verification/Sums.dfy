/** Weighted sums over a sequence: every conservation law and every measure of this
    project is one of these sums with its own weight function. */
module Sums {

  function Sum<T>(s: seq<T>, weight: T -> nat): nat {
    if s == [] then 0 else Sum(s[..|s|-1], weight) + weight(s[|s|-1])
  }

  /** The sequence without its i-th element. */
  function Without<T>(s: seq<T>, i: nat): seq<T>
    requires i < |s|
  {
    s[..i] + s[i+1..]
  }

  lemma {:induction false} SumSnoc<T>(s: seq<T>, x: T, weight: T -> nat)
    ensures Sum(s + [x], weight) == Sum(s, weight) + weight(x)
  {
    assert (s + [x])[..|s|] == s;
  }

  lemma {:induction false} SumConcat<T>(s: seq<T>, t: seq<T>, weight: T -> nat)
    ensures Sum(s + t, weight) == Sum(s, weight) + Sum(t, weight)
  {
    if t == [] {
      assert s + t == s;
    } else {
      assert (s + t)[..|s + t|-1] == s + t[..|t|-1];
      SumConcat(s, t[..|t|-1], weight);
    }
  }

  lemma {:induction false} SumWithout<T>(s: seq<T>, i: nat, weight: T -> nat)
    requires i < |s|
    ensures Sum(s, weight) == Sum(Without(s, i), weight) + weight(s[i])
  {
    assert s == (s[..i] + [s[i]]) + s[i+1..];
    SumConcat(s[..i] + [s[i]], s[i+1..], weight);
    SumSnoc(s[..i], s[i], weight);
    SumConcat(s[..i], s[i+1..], weight);
  }

  lemma {:induction false} SumPositive<T>(s: seq<T>, weight: T -> nat)
    requires Sum(s, weight) > 0
    ensures exists i :: 0 <= i < |s| && weight(s[i]) > 0
  {
    if weight(s[|s|-1]) == 0 {
      SumPositive(s[..|s|-1], weight);
      var i :| 0 <= i < |s| - 1 && weight(s[..|s|-1][i]) > 0;
      assert weight(s[i]) > 0;
    }
  }

  lemma {:induction false} SumUpTo<T>(s: seq<T>, lighter: T -> nat, heavier: T -> nat)
    requires forall x :: x in s ==> lighter(x) <= heavier(x)
    ensures Sum(s, lighter) <= Sum(s, heavier)
  {
    if s != [] {
      forall x | x in s[..|s|-1] ensures lighter(x) <= heavier(x) {
        assert x in s;
      }
      SumUpTo(s[..|s|-1], lighter, heavier);
      assert s[|s|-1] in s;
    }
  }
}
