/** Grouping records by a key into an insertion-ordered dictionary of
    lists, the shape of `d[key] = d.get(key, []) + [x]` over a loop: keys
    appear in the order they are first seen and each group keeps its
    members in input order. */
module Grouping {

  datatype Group<K, T> = Group(key: K, members: seq<T>)

  /** The keys of `xs`, one per element, in order. */
  function KeysOf<K, T>(xs: seq<T>, key: T -> K): (ks: seq<K>)
    ensures |ks| == |xs|
    ensures forall i :: 0 <= i < |xs| ==> ks[i] == key(xs[i])
  {
    seq(|xs|, i requires 0 <= i < |xs| => key(xs[i]))
  }

  /** The elements of `xs` whose key is `k`, in input order. */
  function WithKey<K(==), T>(xs: seq<T>, key: T -> K, k: K): seq<T> {
    if |xs| == 0 then []
    else if key(xs[0]) == k then [xs[0]] + WithKey(xs[1..], key, k)
    else WithKey(xs[1..], key, k)
  }

  /** Position of the first occurrence of `k` in `ks`, or `|ks|` when
      there is none. */
  function FirstIndex<K(==)>(ks: seq<K>, k: K): (i: nat)
    ensures i <= |ks|
    ensures i < |ks| <==> k in ks
    ensures i < |ks| ==> ks[i] == k
    ensures forall j :: 0 <= j < i ==> ks[j] != k
  {
    if |ks| == 0 then 0
    else if ks[0] == k then 0
    else 1 + FirstIndex(ks[1..], k)
  }

  /** Adds `x` under key `k`: appended to the group for `k` when there is
      one, otherwise as a new group at the end. */
  function Insert<K(==), T>(gs: seq<Group<K, T>>, k: K, x: T): seq<Group<K, T>> {
    var ks := GroupKeys(gs);
    if k in ks then
      var i := FirstIndex(ks, k);
      gs[i := Group(k, gs[i].members + [x])]
    else gs + [Group(k, [x])]
  }

  /** The dictionary built by the grouping loop. */
  function GroupBy<K(==), T>(xs: seq<T>, key: T -> K): seq<Group<K, T>> {
    if |xs| == 0 then []
    else Insert(GroupBy(xs[..|xs| - 1], key), key(xs[|xs| - 1]), xs[|xs| - 1])
  }

  /** The keys of a list of groups. */
  function GroupKeys<K, T>(gs: seq<Group<K, T>>): (ks: seq<K>)
    ensures |ks| == |gs|
    ensures forall i :: 0 <= i < |gs| ==> ks[i] == gs[i].key
  {
    seq(|gs|, i requires 0 <= i < |gs| => gs[i].key)
  }

  ghost predicate DistinctKeys<K, T>(gs: seq<Group<K, T>>) {
    forall i, j :: 0 <= i < j < |gs| ==> gs[i].key != gs[j].key
  }

  /** Everything a caller may rely on about `GroupBy(xs, key)`:
      one group per distinct key, each holding exactly the elements with
      that key in input order, and groups ordered by first occurrence. */
  ghost predicate IsGrouping<K, T>(xs: seq<T>, key: T -> K, gs: seq<Group<K, T>>) {
    && DistinctKeys(gs)
    && (forall i :: 0 <= i < |gs| ==> gs[i].members == WithKey(xs, key, gs[i].key))
    && (forall i :: 0 <= i < |gs| ==> gs[i].key in KeysOf(xs, key))
    && (forall x :: x in xs ==> key(x) in GroupKeys(gs))
    && (forall i, j :: 0 <= i < j < |gs| ==>
          FirstIndex(KeysOf(xs, key), gs[i].key) < FirstIndex(KeysOf(xs, key), gs[j].key))
  }

  lemma {:induction false} WithKeySnoc<K, T>(xs: seq<T>, key: T -> K, k: K, x: T)
    ensures WithKey(xs + [x], key, k) ==
            WithKey(xs, key, k) + (if key(x) == k then [x] else [])
  {
    if |xs| == 0 {
      assert xs + [x] == [x];
      assert [x][1..] == [];
    } else {
      assert (xs + [x])[1..] == xs[1..] + [x];
      WithKeySnoc(xs[1..], key, k, x);
    }
  }

  /** An element lies in `WithKey(xs, key, k)` exactly when it is in `xs`
      and has key `k`. */
  lemma {:induction false} WithKeyMembership<K, T>(xs: seq<T>, key: T -> K, k: K, x: T)
    ensures x in WithKey(xs, key, k) <==> x in xs && key(x) == k
  {
    if |xs| > 0 {
      WithKeyMembership(xs[1..], key, k, x);
      assert x in xs <==> x == xs[0] || x in xs[1..];
    }
  }

  lemma {:induction false} WithKeyAbsent<K, T>(xs: seq<T>, key: T -> K, k: K)
    requires k !in KeysOf(xs, key)
    ensures WithKey(xs, key, k) == []
  {
    if |xs| > 0 {
      assert KeysOf(xs[1..], key) == KeysOf(xs, key)[1..];
      WithKeyAbsent(xs[1..], key, k);
    }
  }

  lemma FirstIndexPrefix<K>(ks: seq<K>, k: K, n: nat)
    requires n <= |ks| && k in ks[..n]
    ensures FirstIndex(ks, k) == FirstIndex(ks[..n], k) && FirstIndex(ks, k) < n
  {
    assert forall t :: 0 <= t < n ==> ks[..n][t] == ks[t];
  }

  lemma FirstIndexLast<K>(ks: seq<K>, k: K)
    requires |ks| > 0 && ks[|ks| - 1] == k && k !in ks[..|ks| - 1]
    ensures FirstIndex(ks, k) == |ks| - 1
  {
    assert forall t :: 0 <= t < |ks| - 1 ==> ks[..|ks| - 1][t] == ks[t];
  }

  /** The first occurrence of `k` is at `i` when `k` sits at `i` and
      nowhere before it. */
  lemma FirstIndexAt<K>(ks: seq<K>, k: K, i: nat)
    requires i < |ks| && ks[i] == k && k !in ks[..i]
    ensures FirstIndex(ks, k) == i
  {
    assert forall t :: 0 <= t < i ==> ks[..i][t] == ks[t];
  }

  /** Overwriting an entry that neither was nor becomes `k` leaves the
      first occurrence of `k` where it was. */
  lemma FirstIndexUpdate<K>(ks: seq<K>, j: nat, x: K, k: K)
    requires j < |ks| && ks[j] != k && x != k
    ensures FirstIndex(ks[j := x], k) == FirstIndex(ks, k)
  {
    var ks' := ks[j := x];
    assert forall t :: 0 <= t < |ks| && t != j ==> ks'[t] == ks[t];
  }

  /** What `Insert` does to the keys and members of a list of groups. */
  lemma InsertEffect<K, T>(gs: seq<Group<K, T>>, k: K, x: T)
    requires DistinctKeys(gs)
    ensures var r := Insert(gs, k, x);
      && DistinctKeys(r)
      && (k in GroupKeys(gs) ==> GroupKeys(r) == GroupKeys(gs))
      && (k !in GroupKeys(gs) ==> GroupKeys(r) == GroupKeys(gs) + [k])
      && (forall i :: 0 <= i < |r| ==>
            r[i].members == (if i < |gs| then gs[i].members else []) +
                            (if r[i].key == k then [x] else []))
  {
    var r := Insert(gs, k, x);
    if k in GroupKeys(gs) {
      assert GroupKeys(r) == GroupKeys(gs);
    } else {
      assert GroupKeys(r) == GroupKeys(gs) + [k];
    }
  }

  lemma {:induction false} GroupByDistinctKeys<K, T>(xs: seq<T>, key: T -> K)
    ensures DistinctKeys(GroupBy(xs, key))
  {
    if |xs| > 0 {
      var init := xs[..|xs| - 1];
      GroupByDistinctKeys(init, key);
      InsertEffect(GroupBy(init, key), key(xs[|xs| - 1]), xs[|xs| - 1]);
    }
  }

  /** The group keys are exactly the keys occurring in `xs`. */
  lemma {:induction false} GroupKeysWithin<K, T>(xs: seq<T>, key: T -> K)
    ensures forall k :: k in GroupKeys(GroupBy(xs, key)) <==> k in KeysOf(xs, key)
  {
    if |xs| > 0 {
      var init := xs[..|xs| - 1];
      var x := xs[|xs| - 1];
      GroupKeysWithin(init, key);
      GroupByDistinctKeys(init, key);
      InsertEffect(GroupBy(init, key), key(x), x);
      assert KeysOf(xs, key) == KeysOf(init, key) + [key(x)];
    }
  }

  lemma KeyHasGroup<K, T>(xs: seq<T>, key: T -> K, k: K)
    requires k in KeysOf(xs, key)
    ensures k in GroupKeys(GroupBy(xs, key))
  {
    GroupKeysWithin(xs, key);
  }

  /** The keys of `GroupBy(xs, key)` are distinct and are exactly the keys
      occurring in `xs`. */
  lemma GroupByKeys<K, T>(xs: seq<T>, key: T -> K)
    ensures var gs := GroupBy(xs, key);
      && DistinctKeys(gs)
      && (forall i :: 0 <= i < |gs| ==> gs[i].key in KeysOf(xs, key))
      && (forall t :: 0 <= t < |xs| ==> key(xs[t]) in GroupKeys(gs))
  {
    var gs := GroupBy(xs, key);
    var ks := KeysOf(xs, key);
    GroupByDistinctKeys(xs, key);
    GroupKeysWithin(xs, key);
    forall i | 0 <= i < |gs|
      ensures gs[i].key in ks
    {
      assert gs[i].key == GroupKeys(gs)[i];
    }
    forall t | 0 <= t < |xs|
      ensures key(xs[t]) in GroupKeys(gs)
    {
      assert key(xs[t]) == ks[t];
      KeyHasGroup(xs, key, key(xs[t]));
    }
  }

  /** Each group of `GroupBy(xs, key)` holds exactly the elements of `xs`
      with its key, in input order. */
  lemma {:induction false} GroupByMembers<K, T>(xs: seq<T>, key: T -> K)
    ensures var gs := GroupBy(xs, key);
      forall i :: 0 <= i < |gs| ==> gs[i].members == WithKey(xs, key, gs[i].key)
  {
    if |xs| > 0 {
      var init := xs[..|xs| - 1];
      var x := xs[|xs| - 1];
      assert xs == init + [x];
      GroupByKeys(init, key);
      GroupByMembers(init, key);
      var gs := GroupBy(init, key);
      InsertEffect(gs, key(x), x);
      var r := GroupBy(xs, key);
      forall i | 0 <= i < |r|
        ensures r[i].members == WithKey(xs, key, r[i].key)
      {
        WithKeySnoc(init, key, r[i].key, x);
        if i >= |gs| {
          assert r[i].key == GroupKeys(r)[i] == key(x);
          assert key(x) !in KeysOf(init, key);
          WithKeyAbsent(init, key, key(x));
        } else {
          assert r[i].key == GroupKeys(r)[i] == GroupKeys(gs)[i];
        }
      }
    }
  }

  /** Groups come in the order their keys first occur in `xs`. */
  lemma {:induction false} GroupByOrder<K, T>(xs: seq<T>, key: T -> K)
    ensures var gs := GroupBy(xs, key);
      forall i, j :: 0 <= i < j < |gs| ==>
        FirstIndex(KeysOf(xs, key), gs[i].key) < FirstIndex(KeysOf(xs, key), gs[j].key)
  {
    if |xs| > 0 {
      var init := xs[..|xs| - 1];
      var x := xs[|xs| - 1];
      GroupByKeys(init, key);
      GroupByOrder(init, key);
      var gs := GroupBy(init, key);
      InsertEffect(gs, key(x), x);
      var r := GroupBy(xs, key);
      var ks := KeysOf(xs, key);
      assert KeysOf(init, key) == ks[..|xs| - 1];
      forall i, j | 0 <= i < j < |r|
        ensures FirstIndex(ks, r[i].key) < FirstIndex(ks, r[j].key)
      {
        assert r[i].key == GroupKeys(r)[i] == GroupKeys(gs)[i];
        FirstIndexPrefix(ks, r[i].key, |xs| - 1);
        if j < |gs| {
          assert r[j].key == GroupKeys(r)[j] == GroupKeys(gs)[j];
          FirstIndexPrefix(ks, r[j].key, |xs| - 1);
        } else {
          assert r[j].key == GroupKeys(r)[j] == key(x);
          assert key(x) !in ks[..|xs| - 1];
          FirstIndexLast(ks, key(x));
        }
      }
    }
  }

  /** `GroupBy` meets its specification. */
  lemma GroupByIsGrouping<K, T>(xs: seq<T>, key: T -> K)
    ensures IsGrouping(xs, key, GroupBy(xs, key))
  {
    GroupByKeys(xs, key);
    GroupByMembers(xs, key);
    GroupByOrder(xs, key);
  }

  /** The group keys are the keys occurring in `xs`, each exactly once,
      in the order of their first occurrence. */
  lemma GroupKeysAreFirstOccurrences<K, T>(xs: seq<T>, key: T -> K)
    ensures var keys := GroupKeys(GroupBy(xs, key));
            var ks := KeysOf(xs, key);
      && (forall k :: k in keys <==> k in ks)
      && (forall i, j :: 0 <= i < j < |keys| ==> keys[i] != keys[j])
      && (forall i, j :: 0 <= i < j < |keys| ==> FirstIndex(ks, keys[i]) < FirstIndex(ks, keys[j]))
  {
    var gs := GroupBy(xs, key);
    GroupByKeys(xs, key);
    GroupByOrder(xs, key);
    var keys := GroupKeys(gs);
    var ks := KeysOf(xs, key);
    forall k | k in ks
      ensures k in keys
    {
      var t :| 0 <= t < |xs| && ks[t] == k;
    }
  }

  /** Every element lands in exactly one group: the one for its own key. */
  lemma ExactlyOneGroup<K, T>(xs: seq<T>, key: T -> K, x: T)
    requires x in xs
    ensures exists i :: 0 <= i < |GroupBy(xs, key)| && x in GroupBy(xs, key)[i].members
    ensures forall i, j ::
              (0 <= i < |GroupBy(xs, key)| && 0 <= j < |GroupBy(xs, key)| &&
               x in GroupBy(xs, key)[i].members && x in GroupBy(xs, key)[j].members) ==> i == j
  {
    var gs := GroupBy(xs, key);
    GroupByIsGrouping(xs, key);
    var t :| 0 <= t < |xs| && xs[t] == x;
    assert key(x) in GroupKeys(gs);
    var i := FirstIndex(GroupKeys(gs), key(x));
    assert gs[i].key == key(x);
    WithKeyMembership(xs, key, key(x), x);
    assert x in gs[i].members;
    forall j | 0 <= j < |gs| && x in gs[j].members
      ensures j == i
    {
      WithKeyMembership(xs, key, gs[j].key, x);
    }
  }

  /** Grouping loses and duplicates nothing: the group sizes add up to
      the input length. */
  function TotalMembers<K, T>(gs: seq<Group<K, T>>): nat {
    if |gs| == 0 then 0 else |gs[0].members| + TotalMembers(gs[1..])
  }

  lemma {:induction false} InsertAddsOne<K, T>(gs: seq<Group<K, T>>, k: K, x: T)
    ensures TotalMembers(Insert(gs, k, x)) == TotalMembers(gs) + 1
  {
    if |gs| > 0 && gs[0].key != k {
      InsertAddsOne(gs[1..], k, x);
      assert Insert(gs, k, x)[1..] == Insert(gs[1..], k, x);
    } else if |gs| > 0 {
      assert Insert(gs, k, x)[1..] == gs[1..];
    }
  }

  lemma {:induction false} GroupByPreservesCount<K, T>(xs: seq<T>, key: T -> K)
    ensures TotalMembers(GroupBy(xs, key)) == |xs|
  {
    if |xs| > 0 {
      GroupByPreservesCount(xs[..|xs| - 1], key);
      InsertAddsOne(GroupBy(xs[..|xs| - 1], key), key(xs[|xs| - 1]), xs[|xs| - 1]);
    }
  }

  predicate NoEmptyGroup<K, T>(gs: seq<Group<K, T>>) {
    forall i :: 0 <= i < |gs| ==> |gs[i].members| > 0
  }

  /** The first element of each group, in group order: deduplication by
      key keeping the first occurrence (`[v[0] for v in d.values()]`). */
  function FirstOfEach<K, T>(gs: seq<Group<K, T>>): seq<T>
    requires NoEmptyGroup(gs)
  {
    seq(|gs|, i requires 0 <= i < |gs| => gs[i].members[0])
  }

  /** The first element with key `k` heads the elements with that key. */
  lemma {:induction false} WithKeyHead<K, T>(xs: seq<T>, key: T -> K, k: K)
    requires k in KeysOf(xs, key)
    ensures |WithKey(xs, key, k)| > 0
    ensures WithKey(xs, key, k)[0] == xs[FirstIndex(KeysOf(xs, key), k)]
  {
    if key(xs[0]) != k {
      assert KeysOf(xs[1..], key) == KeysOf(xs, key)[1..];
      WithKeyHead(xs[1..], key, k);
    }
  }

  /** Every group is non-empty and is headed by the first element of `xs`
      carrying its key, so `FirstOfEach` keeps first occurrences. */
  lemma GroupByHeads<K, T>(xs: seq<T>, key: T -> K)
    ensures NoEmptyGroup(GroupBy(xs, key))
    ensures var gs := GroupBy(xs, key);
      forall i :: 0 <= i < |gs| ==> gs[i].key in KeysOf(xs, key)
    ensures var gs := GroupBy(xs, key);
      forall i :: 0 <= i < |gs| ==>
        |gs[i].members| > 0 && gs[i].members[0] == xs[FirstIndex(KeysOf(xs, key), gs[i].key)]
  {
    var gs := GroupBy(xs, key);
    GroupByKeys(xs, key);
    GroupByMembers(xs, key);
    forall i | 0 <= i < |gs|
      ensures |gs[i].members| > 0 && gs[i].members[0] == xs[FirstIndex(KeysOf(xs, key), gs[i].key)]
    {
      WithKeyHead(xs, key, gs[i].key);
    }
  }

  /** An element whose key was seen before changes no group's head. */
  lemma FirstOfEachSnocSeen<K, T>(xs: seq<T>, key: T -> K, x: T)
    requires key(x) in KeysOf(xs, key)
    ensures NoEmptyGroup(GroupBy(xs, key)) && NoEmptyGroup(GroupBy(xs + [x], key))
    ensures FirstOfEach(GroupBy(xs + [x], key)) == FirstOfEach(GroupBy(xs, key))
  {
    GroupByHeads(xs, key);
    GroupByHeads(xs + [x], key);
    var gs := GroupBy(xs, key);
    assert (xs + [x])[..|xs|] == xs;
    GroupByDistinctKeys(xs, key);
    KeyHasGroup(xs, key, key(x));
    InsertEffect(gs, key(x), x);
    var r := GroupBy(xs + [x], key);
    assert GroupKeys(r) == GroupKeys(gs);
    forall j | 0 <= j < |gs|
      ensures r[j].members[0] == gs[j].members[0]
    {
    }
  }

  ghost predicate DistinctKeysOf<K, T>(xs: seq<T>, key: T -> K) {
    forall i, j :: 0 <= i < j < |xs| ==> key(xs[i]) != key(xs[j])
  }

  /** With pairwise distinct keys every group is a singleton, in input
      order. */
  lemma {:induction false} GroupByDistinct<K, T>(xs: seq<T>, key: T -> K)
    requires DistinctKeysOf(xs, key)
    ensures var gs := GroupBy(xs, key);
      |gs| == |xs| && forall i :: 0 <= i < |xs| ==> gs[i] == Group(key(xs[i]), [xs[i]])
  {
    if |xs| > 0 {
      var init := xs[..|xs| - 1];
      var x := xs[|xs| - 1];
      GroupByDistinct(init, key);
      var gs := GroupBy(init, key);
      InsertNew(gs, key(x), x);
    }
  }

  lemma {:induction false} InsertNew<K, T>(gs: seq<Group<K, T>>, k: K, x: T)
    requires forall i :: 0 <= i < |gs| ==> gs[i].key != k
    ensures Insert(gs, k, x) == gs + [Group(k, [x])]
  {
    if |gs| > 0 {
      InsertNew(gs[1..], k, x);
      assert gs == [gs[0]] + gs[1..];
    }
  }

  /** A sequence without repeats has as many distinct elements as it has
      elements. */
  lemma {:induction false} DistinctCard<K>(s: seq<K>)
    requires forall i, j :: 0 <= i < j < |s| ==> s[i] != s[j]
    ensures |set k | k in s| == |s|
  {
    if |s| > 0 {
      var init, last := s[..|s| - 1], s[|s| - 1];
      DistinctCard(init);
      assert (set k | k in s) == (set k | k in init) + {last};
      assert last !in init;
    }
  }

  /** There are as many groups as there are distinct keys in `xs`. The
      keys are strings, as they are wherever the model groups. */
  lemma GroupCountIsDistinctKeys<T>(xs: seq<T>, key: T -> string)
    ensures |GroupBy(xs, key)| == |set k | k in KeysOf(xs, key)|
  {
    var gs := GroupBy(xs, key);
    var keys, ks := GroupKeys(gs), KeysOf(xs, key);
    GroupKeysWithin(xs, key);
    GroupByDistinctKeys(xs, key);
    DistinctCard(keys);
    assert (set k | k in keys) == (set k | k in ks);
  }
}
