/** `defaultdict(list)` of track numbers, as the checks use it to gather the
    tracks that share one problem: each key maps to the list of track numbers
    appended under it, and the keys keep their insertion order. */
module Grouping {
  import opened Hierarchy

  datatype Groups<K(==)> = Groups(keys: seq<K>, lists: map<K, seq<int>>)
  {
    /** The keys are listed once each, they are exactly the dictionary's keys,
        and no list is empty (a key only appears when something is appended). */
    predicate Valid()
    {
      && Distinct(keys)
      && (forall k :: k in lists ==> k in keys)
      && (forall i :: 0 <= i < |keys| ==> keys[i] in lists)
      && (forall k :: k in lists ==> |lists[k]| > 0)
    }
  }

  function NoGroups<K(==)>(): Groups<K>
  {
    Groups([], map[])
  }

  /** `groups[k].append(n)`. */
  function Add<K(==)>(g: Groups<K>, k: K, n: int): (r: Groups<K>)
    ensures k in r.lists && r.lists[k] == (if k in g.lists then g.lists[k] else []) + [n]
    ensures forall j :: j in g.lists && j != k ==> j in r.lists && r.lists[j] == g.lists[j]
    ensures forall j :: j in r.lists ==> j == k || j in g.lists
    ensures g.Valid() ==> r.Valid()
  {
    if k in g.lists then Groups(g.keys, g.lists[k := g.lists[k] + [n]])
    else Groups(g.keys + [k], g.lists[k := [n]])
  }

  /** The dictionary built by appending each `(key, number)` pair in turn. */
  function GroupAll<K(==)>(pairs: seq<(K, int)>): (g: Groups<K>)
    ensures g.Valid()
  {
    if pairs == [] then NoGroups()
    else Add(GroupAll(pairs[..|pairs| - 1]), pairs[|pairs| - 1].0, pairs[|pairs| - 1].1)
  }

  /** The numbers paired with `k`, in order: what `groups[k]` should hold. */
  function Members<K(==)>(pairs: seq<(K, int)>, k: K): seq<int>
  {
    if pairs == [] then []
    else Members(pairs[..|pairs| - 1], k) + (if pairs[|pairs| - 1].0 == k then [pairs[|pairs| - 1].1] else [])
  }

  /** A key is in the dictionary exactly when some pair carries it, and its
      list is then exactly the numbers paired with it, in order. */
  lemma {:induction false} GroupAllMembers<K>(pairs: seq<(K, int)>, k: K)
    ensures k in GroupAll(pairs).lists <==> Members(pairs, k) != []
    ensures k in GroupAll(pairs).lists ==> GroupAll(pairs).lists[k] == Members(pairs, k)
  {
    if pairs != [] {
      GroupAllMembers(pairs[..|pairs| - 1], k);
    }
  }

  /** `n` is among the numbers paired with `k` exactly when the pair `(k, n)`
      occurs. */
  lemma {:induction false} MembersIff<K>(pairs: seq<(K, int)>, k: K, n: int)
    ensures n in Members(pairs, k) <==> (k, n) in pairs
  {
    if pairs != [] {
      var p := pairs[..|pairs| - 1];
      MembersIff(p, k, n);
      assert pairs == p + [pairs[|pairs| - 1]];
    }
  }
  /** Appending one more pair is one more `groups[k].append(n)`. */
  lemma GroupAllSnoc<K>(pairs: seq<(K, int)>, p: (K, int))
    ensures GroupAll(pairs + [p]) == Add(GroupAll(pairs), p.0, p.1)
  {
    assert (pairs + [p])[..|pairs|] == pairs;
  }

  /** A key has a list exactly when some pair carries it. */
  lemma InGroupsIff<K>(pairs: seq<(K, int)>, k: K)
    ensures k in GroupAll(pairs).lists <==> exists i :: 0 <= i < |pairs| && pairs[i].0 == k
  {
    GroupAllMembers(pairs, k);
    MembersNonEmpty(pairs, k);
  }

  lemma {:induction false} MembersNonEmpty<K>(pairs: seq<(K, int)>, k: K)
    ensures Members(pairs, k) != [] <==> exists i :: 0 <= i < |pairs| && pairs[i].0 == k
  {
    if pairs != [] {
      var init := pairs[..|pairs| - 1];
      MembersNonEmpty(init, k);
      if exists i :: 0 <= i < |init| && init[i].0 == k {
        var i :| 0 <= i < |init| && init[i].0 == k;
        assert pairs[i].0 == k;
      }
      if exists i :: 0 <= i < |pairs| && pairs[i].0 == k {
        var i :| 0 <= i < |pairs| && pairs[i].0 == k;
        if i < |init| {
          assert init[i].0 == k;
        }
      }
    }
  }

  /** Some key has more than one number on its list. */
  predicate SharedKey<K(==)>(g: Groups<K>)
  {
    exists k :: k in g.lists && |g.lists[k]| > 1
  }

  /** Appending under `k` makes some key shared exactly when one already was,
      or `k` already had a list. */
  lemma AddShares<K>(g: Groups<K>, k: K, n: int)
    requires g.Valid()
    ensures SharedKey(Add(g, k, n)) <==> SharedKey(g) || k in g.lists
  {
    var r := Add(g, k, n);
    if k in g.lists {
      assert |g.lists[k]| > 0;
      assert |r.lists[k]| > 1;
    }
    if SharedKey(g) {
      var w :| w in g.lists && |g.lists[w]| > 1;
      assert w in r.lists && |r.lists[w]| >= |g.lists[w]|;
    }
    if SharedKey(r) && k !in g.lists {
      var w :| w in r.lists && |r.lists[w]| > 1;
      assert w in g.lists;
    }
  }
}
