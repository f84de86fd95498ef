/**
 * Sequence helpers: display caps (list slicing s[:n]), Python's sorted()/list.sort()
 * with a key, duplicate-freedom and sums.
 */
module Seqs {

  /** The first n items of s, or all of s when it is shorter (a slice s[:n]). */
  function Take<T>(s: seq<T>, n: nat): (r: seq<T>)
    ensures |r| == if |s| <= n then |s| else n
    ensures r == s[..|r|]
  {
    if |s| <= n then s else s[..n]
  }

  predicate NoDups<T(==)>(s: seq<T>)
  {
    forall i, j :: 0 <= i < j < |s| ==> s[i] != s[j]
  }

  /** A duplicate-free sequence has as many elements as the set of its elements. */
  lemma {:induction false} NoDupsCardinality<T>(s: seq<T>)
    requires NoDups(s)
    ensures |set x | x in s| == |s|
  {
    if s != [] {
      var rest := s[1..];
      NoDupsCardinality(rest);
      assert (set x | x in s) == (set x | x in rest) + {s[0]};
      assert s[0] !in (set x | x in rest);
    }
  }

  /** The ordering a sort may be given: any two elements compare, and comparisons chain. */
  ghost predicate TotalPreorder<T(!new)>(le: (T, T) -> bool)
  {
    && (forall a, b :: le(a, b) || le(b, a))
    && (forall a, b, c :: le(a, b) && le(b, c) ==> le(a, c))
  }

  predicate SortedBy<T>(s: seq<T>, le: (T, T) -> bool)
  {
    forall i, j :: 0 <= i < j < |s| ==> le(s[i], s[j])
  }

  /** Insert x in front of the first element it does not come after. */
  function InsertBy<T(!new)>(x: T, s: seq<T>, le: (T, T) -> bool): (r: seq<T>)
    requires TotalPreorder(le) && SortedBy(s, le)
    ensures SortedBy(r, le)
    ensures multiset(r) == multiset(s) + multiset{x}
  {
    if s == [] then [x]
    else if le(x, s[0]) then [x] + s
    else
      var rest := InsertBy(x, s[1..], le);
      assert s == [s[0]] + s[1..];
      assert forall k :: 0 <= k < |rest| ==> le(s[0], rest[k]) by {
        forall k | 0 <= k < |rest| ensures le(s[0], rest[k]) {
          var y := rest[k];
          assert y in multiset(rest);
          if y != x {
            assert y in multiset(s[1..]);
            var m :| 0 <= m < |s[1..]| && s[1..][m] == y;
            assert le(s[0], s[m + 1]);
          }
        }
      }
      [s[0]] + rest
  }

  /** Python's sorting with a key, as an insertion sort; an element is inserted before the equal
      ones that follow it in s, so equal elements keep their order, as in Python. */
  function SortBy<T(!new)>(s: seq<T>, le: (T, T) -> bool): (r: seq<T>)
    requires TotalPreorder(le)
    ensures SortedBy(r, le)
    ensures multiset(r) == multiset(s)
  {
    if s == [] then []
    else
      assert s == [s[0]] + s[1..];
      InsertBy(s[0], SortBy(s[1..], le), le)
  }

  /** Sorting keeps the length and the elements. */
  lemma SortByKeepsElements<T(!new)>(s: seq<T>, le: (T, T) -> bool)
    requires TotalPreorder(le)
    ensures |SortBy(s, le)| == |s|
    ensures forall x :: x in SortBy(s, le) <==> x in s
  {
    var r := SortBy(s, le);
    assert |multiset(r)| == |multiset(s)|;
    forall x ensures x in r <==> x in s {
      assert x in r <==> x in multiset(r);
      assert x in s <==> x in multiset(s);
    }
  }

  /** A permutation of a duplicate-free sequence is duplicate-free. */
  lemma PermutationNoDups<T>(s: seq<T>, t: seq<T>)
    requires multiset(s) == multiset(t) && NoDups(s)
    ensures NoDups(t)
  {
    forall i, j | 0 <= i < j < |t| ensures t[i] != t[j] {
      if t[i] == t[j] {
        assert multiset(t)[t[i]] >= 2 by {
          assert t == t[..i] + [t[i]] + t[i+1..j] + [t[j]] + t[j+1..];
        }
        NoDupsCount(s, t[i]);
        assert false;
      }
    }
  }

  /** Two duplicate-free sequences of the same elements are permutations of each other. */
  lemma SameElementsPermutation<T>(s: seq<T>, t: seq<T>)
    requires NoDups(s) && NoDups(t)
    requires forall x :: x in s <==> x in t
    ensures multiset(s) == multiset(t)
  {
    forall x ensures multiset(s)[x] == multiset(t)[x] {
      NoDupsCount(s, x);
      NoDupsCount(t, x);
      assert x in s <==> x in multiset(s);
      assert x in t <==> x in multiset(t);
    }
  }

  /** In a duplicate-free sequence every element occurs once. */
  lemma {:induction false} NoDupsCount<T>(s: seq<T>, x: T)
    requires NoDups(s)
    ensures multiset(s)[x] <= 1
  {
    if s != [] {
      assert s == [s[0]] + s[1..];
      NoDupsCount(s[1..], x);
      assert s[0] in s[1..] ==> false;
    }
  }

  function SumBy<T>(s: seq<T>, f: T -> nat): nat
  {
    if s == [] then 0 else f(s[0]) + SumBy(s[1..], f)
  }

  lemma {:induction false} SumByAppend<T>(s: seq<T>, t: seq<T>, f: T -> nat)
    ensures SumBy(s + t, f) == SumBy(s, f) + SumBy(t, f)
  {
    if s == [] {
      assert s + t == t;
    } else {
      assert (s + t)[1..] == s[1..] + t;
      SumByAppend(s[1..], t, f);
    }
  }

  /** The sum over s is the sum over all but its last item, plus the last item's term. */
  lemma SumBySnoc<T>(s: seq<T>, f: T -> nat)
    requires s != []
    ensures SumBy(s, f) == SumBy(s[..|s| - 1], f) + f(s[|s| - 1])
  {
    var init, last := s[..|s| - 1], s[|s| - 1];
    assert s == init + [last];
    SumByAppend(init, [last], f);
    assert SumBy([last], f) == f(last) + SumBy([last][1..], f);
  }

  /** The items of s are those of all but its last item, plus the last item. */
  lemma MultisetSnoc<T>(s: seq<T>)
    requires s != []
    ensures multiset(s) == multiset(s[..|s| - 1]) + multiset{s[|s| - 1]}
  {
    assert s == s[..|s| - 1] + [s[|s| - 1]];
  }

  /** Reordering does not change a sum. */
  lemma {:induction false} SumByPermutation<T>(s: seq<T>, t: seq<T>, f: T -> nat)
    requires multiset(s) == multiset(t)
    ensures SumBy(s, f) == SumBy(t, f)
  {
    if s != [] {
      var x := s[0];
      assert x in multiset(t);
      var i :| 0 <= i < |t| && t[i] == x;
      var rest := t[..i] + t[i+1..];
      RemoveAtMultiset(t, i);
      assert s == [x] + s[1..];
      MultisetCancel(multiset(s[1..]), multiset(rest), x);
      SumByPermutation(s[1..], rest, f);
      SumByRemoveAt(t, i, f);
    }
  }

  /** Taking the item at i out of t takes one occurrence of it out of t's multiset. */
  lemma RemoveAtMultiset<T>(t: seq<T>, i: nat)
    requires i < |t|
    ensures multiset(t) == multiset(t[..i] + t[i+1..]) + multiset{t[i]}
  {
    assert t == t[..i] + [t[i]] + t[i+1..];
  }

  lemma MultisetCancel<T>(a: multiset<T>, b: multiset<T>, x: T)
    requires multiset{x} + a == b + multiset{x}
    ensures a == b
  {
    forall y ensures a[y] == b[y] {
      assert (multiset{x} + a)[y] == (b + multiset{x})[y];
    }
  }

  /** Taking the item at i out of t takes its value out of the sum. */
  lemma SumByRemoveAt<T>(t: seq<T>, i: nat, f: T -> nat)
    requires i < |t|
    ensures SumBy(t, f) == SumBy(t[..i] + t[i+1..], f) + f(t[i])
  {
    var x := t[i];
    assert t == t[..i] + ([x] + t[i+1..]);
    SumByAppend(t[..i], [x] + t[i+1..], f);
    SumByAppend(t[..i], t[i+1..], f);
    assert ([x] + t[i+1..])[1..] == t[i+1..];
  }

  /** The items of s that keep accepts, in order. */
  function Filter<T(!new)>(s: seq<T>, keep: T -> bool): (r: seq<T>)
    ensures |r| <= |s|
    ensures forall x :: x in r <==> x in s && keep(x)
  {
    if s == [] then []
    else if keep(s[|s| - 1]) then Filter(s[..|s| - 1], keep) + [s[|s| - 1]]
    else Filter(s[..|s| - 1], keep)
  }

  /** Filtering one more item of a prefix appends it when it is kept. */
  lemma FilterPrefixStep<T(!new)>(s: seq<T>, i: nat, keep: T -> bool)
    requires i < |s|
    ensures keep(s[i]) ==> Filter(s[..i + 1], keep) == Filter(s[..i], keep) + [s[i]]
    ensures !keep(s[i]) ==> Filter(s[..i + 1], keep) == Filter(s[..i], keep)
  {
    assert s[..i + 1][..i] == s[..i] && s[..i + 1][i] == s[i];
  }

  /** The loop form of Filter: each accepted item is appended in turn. */
  method Retain<T(!new)>(s: seq<T>, keep: T -> bool) returns (r: seq<T>)
    ensures r == Filter(s, keep)
  {
    r := [];
    var i := 0;
    while i < |s|
      invariant 0 <= i <= |s|
      invariant r == Filter(s[..i], keep)
    {
      assert s[..i + 1][..i] == s[..i];
      if keep(s[i]) {
        r := r + [s[i]];
      }
      i := i + 1;
    }
    assert s[..|s|] == s;
  }

  /** Nothing is kept when keep rejects every item. */
  lemma {:induction false} FilterNone<T(!new)>(s: seq<T>, keep: T -> bool)
    requires forall x :: x in s ==> !keep(x)
    ensures Filter(s, keep) == []
  {
    if s != [] {
      FilterNone(s[..|s| - 1], keep);
    }
  }

  /** Filtering a duplicate-free sequence leaves it duplicate-free. */
  lemma {:induction false} FilterNoDups<T(!new)>(s: seq<T>, keep: T -> bool)
    requires NoDups(s)
    ensures NoDups(Filter(s, keep))
  {
    if s != [] {
      var init := s[..|s| - 1];
      assert NoDups(init) by {
        forall i, j | 0 <= i < j < |init| ensures init[i] != init[j] {
          assert init[i] == s[i] && init[j] == s[j];
        }
      }
      FilterNoDups(init, keep);
      assert s[|s| - 1] !in init by {
        forall i | 0 <= i < |init| ensures init[i] != s[|s| - 1] {
          assert init[i] == s[i];
        }
      }
    }
  }
}
