// Weighted totals over sequences, used wherever the program counts in a loop.
module Counting {

  function Total<T>(s: seq<T>, weight: T -> nat): nat {
    if s == [] then 0 else Total(s[..|s| - 1], weight) + weight(s[|s| - 1])
  }

  lemma TotalExtend<T>(s: seq<T>, i: nat, weight: T -> nat)
    requires i < |s|
    ensures Total(s[..i + 1], weight) == Total(s[..i], weight) + weight(s[i])
  {
    assert s[..i + 1][..i] == s[..i];
  }

  lemma {:induction false} TotalConcat<T>(s: seq<T>, t: seq<T>, weight: T -> nat)
    ensures Total(s + t, weight) == Total(s, weight) + Total(t, weight)
  {
    if t == [] {
      assert s + t == s;
    } else {
      var init := t[..|t| - 1];
      TotalConcat(s, init, weight);
      assert (s + t)[..|s + t| - 1] == s + init;
    }
  }

  // Replacing one element changes the total by the difference of the two weights.
  lemma TotalUpdate<T>(s: seq<T>, i: nat, x: T, weight: T -> nat)
    requires i < |s|
    ensures Total(s[i := x], weight) + weight(s[i]) == Total(s, weight) + weight(x)
  {
    var t := s[i := x];
    assert s == s[..i + 1] + s[i + 1..] && t == t[..i + 1] + s[i + 1..];
    TotalConcat(s[..i + 1], s[i + 1..], weight);
    TotalConcat(t[..i + 1], s[i + 1..], weight);
    TotalExtend(s, i, weight);
    TotalExtend(t, i, weight);
    assert s[..i] == t[..i];
  }

  lemma {:induction false} TotalBounded<T>(s: seq<T>, small: T -> nat, large: T -> nat)
    requires forall x | x in s :: small(x) <= large(x)
    ensures Total(s, small) <= Total(s, large)
    ensures Total(s, small) == Total(s, large) <==> forall x | x in s :: small(x) == large(x)
  {
    if s == [] {
    } else {
      var init := s[..|s| - 1];
      TotalBounded(init, small, large);
      assert s == init + [s[|s| - 1]];
    }
  }

  lemma {:induction false} TotalConstant<T>(s: seq<T>, weight: T -> nat, c: nat)
    requires forall x | x in s :: weight(x) == c
    ensures Total(s, weight) == c * |s|
  {
    if s == [] {
    } else {
      TotalConstant(s[..|s| - 1], weight, c);
    }
  }

  lemma TotalWithout<T>(before: seq<T>, x: T, after: seq<T>, weight: T -> nat)
    ensures Total(before + [x] + after, weight) == Total(before + after, weight) + weight(x)
  {
    TotalConcat(before + [x], after, weight);
    TotalConcat(before, after, weight);
    TotalExtend(before + [x], |before|, weight);
    assert (before + [x])[..|before|] == before && (before + [x])[..|before| + 1] == before + [x];
  }

  lemma TotalFirst<T>(x: T, rest: seq<T>, weight: T -> nat)
    ensures Total([x] + rest, weight) == Total(rest, weight) + weight(x)
  {
    TotalConcat([x], rest, weight);
    assert [x][..0] == [];
  }

  lemma SameRest<T>(x: T, rest: seq<T>, before: seq<T>, after: seq<T>)
    requires multiset([x] + rest) == multiset(before + [x] + after)
    ensures multiset(rest) == multiset(before + after)
  {
    assert multiset(before + [x] + after) == multiset(before + after) + multiset{x};
    assert multiset([x] + rest) - multiset{x} == multiset(rest);
  }

  // A total does not depend on the order of the elements.
  lemma {:induction false} TotalPermutation<T>(s: seq<T>, t: seq<T>, weight: T -> nat)
    requires multiset(s) == multiset(t)
    ensures Total(s, weight) == Total(t, weight)
    decreases |s|
  {
    if s == [] {
      assert |t| == |multiset(t)| == |multiset(s)| == 0;
    } else {
      var x, rest := s[0], s[1..];
      assert x in multiset(s);
      var k :| 0 <= k < |t| && t[k] == x;
      var before, after := t[..k], t[k + 1..];
      assert s == [x] + rest && t == before + [x] + after;
      assert multiset(rest) == multiset(before + after) by {
        SameRest(x, rest, before, after);
      }
      TotalPermutation(rest, before + after, weight);
      TotalFirst(x, rest, weight);
      TotalWithout(before, x, after, weight);
    }
  }
}
