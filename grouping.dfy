/**
 * The dict-of-lists idiom every operation of the engine uses: an item is appended to the
 * list of its key, and a key seen for the first time starts a new, empty list.
 * A dict keeps its keys in the order they were first inserted, so it is modelled as a
 * sequence of (key, members) pairs.
 */
module Grouping {
  import opened Text
  import opened Seqs

  type Groups<K, V> = seq<(K, seq<V>)>

  /** The keys of a dict, in insertion order. */
  function Keys<K, V>(g: Groups<K, V>): (r: seq<K>)
    ensures |r| == |g| && forall i :: 0 <= i < |g| ==> r[i] == g[i].0
  {
    if g == [] then [] else [g[0].0] + Keys(g[1..])
  }

  /** The list of k, or the empty list when k is absent. */
  function Lookup<K(==), V>(g: Groups<K, V>, k: K): seq<V>
  {
    if g == [] then [] else if g[0].0 == k then g[0].1 else Lookup(g[1..], k)
  }

  /** The dict is well formed: no key twice and no empty list. */
  predicate Proper<K(==), V>(g: Groups<K, V>)
  {
    && (forall i, j :: 0 <= i < j < |g| ==> g[i].0 != g[j].0)
    && (forall i :: 0 <= i < |g| ==> g[i].1 != [])
  }

  /** One step of the idiom: append v to the list of k, creating it at the end if k is new. */
  function AddTo<K(==), V>(g: Groups<K, V>, k: K, v: V): (r: Groups<K, V>)
    ensures |r| == if k in Keys(g) then |g| else |g| + 1
    ensures forall i :: 0 <= i < |g| ==> r[i].0 == g[i].0
    ensures k !in Keys(g) ==> r[|g|] == (k, [v])
  {
    if g == [] then [(k, [v])]
    else if g[0].0 == k then [(k, g[0].1 + [v])] + g[1..]
    else [g[0]] + AddTo(g[1..], k, v)
  }

  /** The whole loop: every item of s, in order, appended under its key. */
  function GroupAll<K(==), V>(s: seq<V>, key: V -> K): Groups<K, V>
  {
    if s == [] then [] else AddTo(GroupAll(s[..|s| - 1], key), key(s[|s| - 1]), s[|s| - 1])
  }

  /** The reference definition of one group: the items of s whose key is k, in order. */
  function Select<K(==), V>(s: seq<V>, key: V -> K, k: K): (r: seq<V>)
    ensures |r| <= |s|
    ensures forall i :: 0 <= i < |r| ==> key(r[i]) == k && r[i] in s
  {
    if s == [] then []
    else if key(s[|s| - 1]) == k then Select(s[..|s| - 1], key, k) + [s[|s| - 1]]
    else Select(s[..|s| - 1], key, k)
  }

  lemma {:induction false} AddToLookup<K, V>(g: Groups<K, V>, k: K, v: V, j: K)
    ensures Lookup(AddTo(g, k, v), j) == if j == k then Lookup(g, k) + [v] else Lookup(g, j)
  {
    if g != [] && g[0].0 != k {
      AddToLookup(g[1..], k, v, j);
    }
  }

  lemma {:induction false} AddToProper<K, V>(g: Groups<K, V>, k: K, v: V)
    requires Proper(g)
    ensures Proper(AddTo(g, k, v))
  {
    if g != [] && g[0].0 == k {
      var r := [(k, g[0].1 + [v])] + g[1..];
      assert AddTo(g, k, v) == r;
      assert forall i :: 1 <= i < |r| ==> r[i] == g[i];
    } else if g != [] {
      HeadKeyFresh(g);
      AddToProper(g[1..], k, v);
      AddToAvoids(g[1..], k, v, g[0].0);
      assert AddTo(g, k, v) == [g[0]] + AddTo(g[1..], k, v);
      ConsProper(g[0], AddTo(g[1..], k, v));
    }
  }

  /** The first key of a well-formed dict is not among the rest, which is well formed. */
  lemma HeadKeyFresh<K, V>(g: Groups<K, V>)
    requires Proper(g) && g != []
    ensures Proper(g[1..]) && g[0].0 !in Keys(g[1..])
  {
    forall j | 0 <= j < |g| - 1 ensures Keys(g[1..])[j] != g[0].0 {
      assert g[1..][j] == g[j + 1];
    }
  }

  /** Adding under k brings in no key other than k. */
  lemma AddToAvoids<K, V>(g: Groups<K, V>, k: K, v: V, x: K)
    requires x != k && x !in Keys(g)
    ensures forall j :: 0 <= j < |AddTo(g, k, v)| ==> AddTo(g, k, v)[j].0 != x
  {
    var r := AddTo(g, k, v);
    forall j | 0 <= j < |r| ensures r[j].0 != x {
      if j < |g| {
        assert r[j].0 == Keys(g)[j];
      }
    }
  }

  /** A new key with a non-empty list in front of a well-formed dict keeps it well formed. */
  lemma ConsProper<K, V>(x: (K, seq<V>), t: Groups<K, V>)
    requires Proper(t) && x.1 != [] && forall j :: 0 <= j < |t| ==> t[j].0 != x.0
    ensures Proper([x] + t)
  {
    var r := [x] + t;
    assert forall i :: 1 <= i < |r| ==> r[i] == t[i - 1];
  }

  /** In a well-formed dict, the pair at position i holds exactly the list of its key. */
  lemma {:induction false} LookupAt<K, V>(g: Groups<K, V>, i: nat)
    requires Proper(g) && i < |g|
    ensures Lookup(g, g[i].0) == g[i].1
  {
    if i > 0 {
      assert g[0].0 != g[i].0;
      LookupAt(g[1..], i - 1);
    }
  }

  /** A key is absent from a dict exactly when its lookup is empty. */
  lemma {:induction false} LookupKeys<K, V>(g: Groups<K, V>, k: K)
    requires Proper(g)
    ensures k in Keys(g) <==> Lookup(g, k) != []
  {
    if g != [] && g[0].0 != k {
      LookupKeys(g[1..], k);
      assert Keys(g) == [g[0].0] + Keys(g[1..]);
    }
  }

  /** The grouping loop builds a well-formed dict whose list for any key is exactly the
      items of that key, in scan order; so every item lands in exactly one group, the
      group of its own key. */
  lemma {:induction false} GroupAllSelect<K, V>(s: seq<V>, key: V -> K)
    ensures Proper(GroupAll(s, key))
    ensures forall k :: Lookup(GroupAll(s, key), k) == Select(s, key, k)
  {
    if s != [] {
      var init, last := s[..|s| - 1], s[|s| - 1];
      GroupAllSelect(init, key);
      AddToProper(GroupAll(init, key), key(last), last);
      forall k ensures Lookup(GroupAll(s, key), k) == Select(s, key, k) {
        AddToLookup(GroupAll(init, key), key(last), last, k);
      }
    }
  }

  /** The keys of the dict are exactly the keys some item has. */
  lemma GroupAllKeys<K, V>(s: seq<V>, key: V -> K, k: K)
    ensures k in Keys(GroupAll(s, key)) <==> exists i :: 0 <= i < |s| && key(s[i]) == k
  {
    GroupAllSelect(s, key);
    LookupKeys(GroupAll(s, key), k);
    SelectEmpty(s, key, k);
  }

  lemma {:induction false} SelectEmpty<K, V>(s: seq<V>, key: V -> K, k: K)
    ensures Select(s, key, k) == [] <==> forall i :: 0 <= i < |s| ==> key(s[i]) != k
  {
    if s != [] {
      SelectEmpty(s[..|s| - 1], key, k);
    }
  }

  /** A key some item has is the key of one group, which holds the selection of that key. */
  lemma GroupAllHasKey<K, V>(s: seq<V>, key: V -> K, k: K)
    requires Select(s, key, k) != []
    ensures exists i :: 0 <= i < |GroupAll(s, key)| && GroupAll(s, key)[i].0 == k
                        && GroupAll(s, key)[i].1 == Select(s, key, k)
  {
    SelectEmpty(s, key, k);
    GroupAllKeys(s, key, k);
    var i :| 0 <= i < |GroupAll(s, key)| && Keys(GroupAll(s, key))[i] == k;
    GroupAllAt(s, key, i);
  }

  /** Every list of the dict is the selection of its key. */
  lemma GroupAllAt<K, V>(s: seq<V>, key: V -> K, i: nat)
    requires i < |GroupAll(s, key)|
    ensures GroupAll(s, key)[i].1 == Select(s, key, GroupAll(s, key)[i].0)
    ensures GroupAll(s, key)[i].1 != []
  {
    var g := GroupAll(s, key);
    GroupAllSelect(s, key);
    LookupAt(g, i);
    assert Lookup(g, g[i].0) == Select(s, key, g[i].0);
  }

  /** A total over all groups. */
  function SumGroups<K, V>(g: Groups<K, V>, f: V -> nat): nat
  {
    if g == [] then 0 else SumBy(g[0].1, f) + SumGroups(g[1..], f)
  }

  lemma {:induction false} AddToSum<K, V>(g: Groups<K, V>, k: K, v: V, f: V -> nat)
    ensures SumGroups(AddTo(g, k, v), f) == SumGroups(g, f) + f(v)
  {
    if g == [] {
      assert SumBy([v], f) == f(v) + SumBy([v][1..], f);
    } else if g[0].0 == k {
      SumByAppend(g[0].1, [v], f);
      assert SumBy([v], f) == f(v) + SumBy([v][1..], f);
      assert ([(k, g[0].1 + [v])] + g[1..])[1..] == g[1..];
    } else {
      AddToSum(g[1..], k, v, f);
      assert ([g[0]] + AddTo(g[1..], k, v))[1..] == AddTo(g[1..], k, v);
    }
  }

  /** Grouping loses and adds nothing: the groups' totals add up to the total of all
      items (with f = 1, the group sizes add up to the number of items). */
  lemma {:induction false} GroupAllSum<K, V>(s: seq<V>, key: V -> K, f: V -> nat)
    ensures SumGroups(GroupAll(s, key), f) == SumBy(s, f)
  {
    if s != [] {
      var init, last := s[..|s| - 1], s[|s| - 1];
      GroupAllSum(init, key, f);
      AddToSum(GroupAll(init, key), key(last), last, f);
      SumBySnoc(s, f);
    }
  }

  /** All the members of all the groups, group after group. */
  function Members<K, V>(g: Groups<K, V>): seq<V>
  {
    if g == [] then [] else g[0].1 + Members(g[1..])
  }

  /** How often v occurs among the members, as a sum over the groups of its count in each. */
  lemma {:induction false} MembersCount<K, V>(g: Groups<K, V>, v: V, count: ((K, seq<V>)) -> nat)
    requires forall pair: (K, seq<V>) :: count(pair) == multiset(pair.1)[v]
    ensures multiset(Members(g))[v] == SumBy(g, count)
  {
    if g != [] {
      MembersCount(g[1..], v, count);
    }
  }

  /** Regrouping the groups in another order keeps the same members. */
  lemma MembersPermutation<K, V(!new)>(g: Groups<K, V>, h: Groups<K, V>)
    requires multiset(g) == multiset(h)
    ensures multiset(Members(g)) == multiset(Members(h))
  {
    var a, b := multiset(Members(g)), multiset(Members(h));
    forall v ensures a[v] == b[v] {
      var count := (pair: (K, seq<V>)) => multiset(pair.1)[v];
      MembersCount(g, v, count);
      MembersCount(h, v, count);
      SumByPermutation(g, h, count);
    }
    assert a == b;
  }

  lemma {:induction false} AddToMembers<K, V>(g: Groups<K, V>, k: K, v: V)
    ensures multiset(Members(AddTo(g, k, v))) == multiset(Members(g)) + multiset{v}
  {
    if g == [] {
      assert Members([(k, [v])]) == [v] + Members([(k, [v])][1..]);
    } else if g[0].0 == k {
      assert ([(k, g[0].1 + [v])] + g[1..])[1..] == g[1..];
    } else {
      AddToMembers(g[1..], k, v);
      assert ([g[0]] + AddTo(g[1..], k, v))[1..] == AddTo(g[1..], k, v);
    }
  }

  /** Grouping neither loses nor duplicates an item. */
  lemma {:induction false} GroupAllMembers<K, V>(s: seq<V>, key: V -> K)
    ensures multiset(Members(GroupAll(s, key))) == multiset(s)
  {
    if s != [] {
      var init := s[..|s| - 1];
      GroupAllMembers(init, key);
      AddToMembers(GroupAll(init, key), key(s[|s| - 1]), s[|s| - 1]);
      MultisetSnoc(s);
    }
  }

  /** The grouping loop over a listing: each item keep accepts is appended to the list of
      its key, in listing order. */
  method Collect<K(==), V(!new)>(s: seq<V>, keep: V -> bool, key: V -> K) returns (groups: Groups<K, V>)
    ensures groups == GroupAll(Filter(s, keep), key)
  {
    groups := [];
    var i := 0;
    while i < |s|
      invariant 0 <= i <= |s|
      invariant groups == GroupAll(Filter(s[..i], keep), key)
    {
      var item := s[i];
      assert s[..i + 1][..i] == s[..i] && s[..i + 1][i] == item;
      if keep(item) {
        var kept := Filter(s[..i], keep);
        assert (kept + [item])[..|kept|] == kept;
        groups := AddTo(groups, key(item), item);
      }
      i := i + 1;
    }
    assert s[..i] == s;
  }

  /** sorted(groups.items()) for string keys: by key; the keys are distinct, so the lists
      are never compared. */
  predicate KeyBefore<V>(a: (string, seq<V>), b: (string, seq<V>))
  {
    LexLe(a.0, b.0)
  }

  lemma KeyOrder<V(!new)>()
    ensures TotalPreorder(KeyBefore<V>)
  {
    forall a: (string, seq<V>), b: (string, seq<V>) ensures KeyBefore(a, b) || KeyBefore(b, a) {
      LexLeTotal(a.0, b.0);
    }
    forall a: (string, seq<V>), b: (string, seq<V>), c: (string, seq<V>)
      | KeyBefore(a, b) && KeyBefore(b, c)
      ensures KeyBefore(a, c)
    {
      LexLeTransitive(a.0, b.0, c.0);
    }
  }

  function SortedGroups<V(!new)>(g: Groups<string, V>): (r: Groups<string, V>)
    ensures SortedBy(r, KeyBefore) && multiset(r) == multiset(g)
  {
    KeyOrder<V>();
    SortBy(g, KeyBefore)
  }

  /** The sorted grouping of s: keys ascend and are distinct, each group is exactly the
      items of its key in scan order, and the members are the items of s. */
  lemma SortedGroupAll<V(!new)>(s: seq<V>, key: V -> string)
    ensures var g := SortedGroups(GroupAll(s, key));
      && (forall i, j :: 0 <= i < j < |g| ==> LexLe(g[i].0, g[j].0) && g[i].0 != g[j].0)
      && (forall i :: 0 <= i < |g| ==> g[i].1 != [] && g[i].1 == Select(s, key, g[i].0))
      && multiset(Members(g)) == multiset(s)
      && |Members(g)| == |s|
  {
    var groups := GroupAll(s, key);
    var g := SortedGroups(groups);
    GroupAllSelect(s, key);
    forall i | 0 <= i < |g|
      ensures g[i].1 != [] && g[i].1 == Select(s, key, g[i].0)
    {
      assert g[i] in multiset(groups);
      var m :| 0 <= m < |groups| && groups[m] == g[i];
      GroupAllAt(s, key, m);
    }
    assert NoDups(groups);
    PermutationNoDups(groups, g);
    GroupAllMembers(s, key);
    MembersPermutation(groups, g);
    assert |Members(g)| == |multiset(Members(g))| == |multiset(s)| == |s|;
  }
}
