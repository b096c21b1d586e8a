/**
  Counting occurrences in a dictionary, as the statistics panels do with
  `counts[key] = (counts[key] || 0) + 1`: the entries of such a dictionary, in
  the order its properties were created, and what they add up to.
*/
module Tallies {
  predicate Distinct<K(==)>(xs: seq<K>)
  {
    forall i, j :: 0 <= i < j < |xs| ==> xs[i] != xs[j]
  }

  /** The distinct keys in the order of their first occurrence, which is the order
      in which they become properties of the `counts` object. */
  function FirstSeen<K(==,!new)>(keys: seq<K>): (order: seq<K>)
    ensures Distinct(order)
    ensures forall k :: k in order <==> k in keys
    decreases |keys|
  {
    if keys == [] then []
    else
      var order := FirstSeen(keys[..|keys| - 1]);
      var k := keys[|keys| - 1];
      assert forall x :: x in keys <==> x in keys[..|keys| - 1] || x == k by {
        assert keys == keys[..|keys| - 1] + [k];
      }
      if k in order then order else order + [k]
  }

  lemma FirstSeenSnoc<K(!new)>(keys: seq<K>, k: K)
    ensures FirstSeen(keys + [k]) == if k in FirstSeen(keys) then FirstSeen(keys) else FirstSeen(keys) + [k]
  {
    assert (keys + [k])[..|keys|] == keys;
  }

  /** The `{ name, value }` entries of the tally: each distinct key once, with the
      number of times it occurs. */
  function Tally<K(==,!new)>(keys: seq<K>): (entries: seq<(K, nat)>)
  {
    var order := FirstSeen(keys);
    seq(|order|, i requires 0 <= i < |order| => (order[i], multiset(keys)[order[i]]))
  }

  /** The state of the tally after the keys `keys`: `order` lists the properties of
      `counts` in insertion order and each holds the number of occurrences. */
  ghost predicate Counted<K(!new)>(counts: map<K, nat>, order: seq<K>, keys: seq<K>)
  {
    && order == FirstSeen(keys)
    && (forall k :: k in counts <==> k in order)
    && (forall k :: k in counts ==> counts[k] == multiset(keys)[k])
  }

  /** Counting a key that is already a property adds one to its count. */
  lemma CountedAgain<K(!new)>(counts: map<K, nat>, order: seq<K>, keys: seq<K>, key: K)
    requires Counted(counts, order, keys) && key in counts
    ensures Counted(counts[key := counts[key] + 1], order, keys + [key])
  {
    MultisetSnoc(keys, key);
    FirstSeenSnoc(keys, key);
  }

  /** Counting a new key makes it the last property, with count one. */
  lemma CountedNew<K(!new)>(counts: map<K, nat>, order: seq<K>, keys: seq<K>, key: K)
    requires Counted(counts, order, keys) && key !in counts
    ensures Counted(counts[key := 1], order + [key], keys + [key])
  {
    MultisetSnoc(keys, key);
    FirstSeenSnoc(keys, key);
  }

  /** A finished tally lists exactly the entries of `Tally`. */
  lemma CountedTally<K(!new)>(counts: map<K, nat>, order: seq<K>, keys: seq<K>)
    requires Counted(counts, order, keys)
    ensures seq(|order|, j requires 0 <= j < |order| && order[j] in counts => (order[j], counts[order[j]]))
      == Tally(keys)
  {
  }

  /** `counts[key] = (counts[key] || 0) + 1`, with the key appended to the
      insertion order when it becomes a property. */
  method CountKey<K(==,!new)>(counts: map<K, nat>, order: seq<K>, ghost keys: seq<K>, key: K)
    returns (counts': map<K, nat>, order': seq<K>)
    requires Counted(counts, order, keys)
    ensures Counted(counts', order', keys + [key])
  {
    if key in counts {
      CountedAgain(counts, order, keys, key);
      counts' := counts[key := counts[key] + 1];
      order' := order;
    } else {
      CountedNew(counts, order, keys, key);
      counts' := counts[key := 1];
      order' := order + [key];
    }
  }


  /** The sum of the counts of a list of entries. */
  function SumCounts<K(==,!new)>(entries: seq<(K, nat)>): nat
    decreases |entries|
  {
    if entries == [] then 0 else SumCounts(entries[..|entries| - 1]) + entries[|entries| - 1].1
  }

  /** The sum of the multiplicities in `m` of the keys of `order`. */
  function SumOver<K(==,!new)>(order: seq<K>, m: multiset<K>): nat
    decreases |order|
  {
    if order == [] then 0 else SumOver(order[..|order| - 1], m) + m[order[|order| - 1]]
  }

  lemma {:induction false} SumCountsOfTally<K(!new)>(order: seq<K>, m: multiset<K>)
    ensures SumCounts(seq(|order|, i requires 0 <= i < |order| => (order[i], m[order[i]]))) == SumOver(order, m)
    decreases |order|
  {
    if order != [] {
      var n := |order|;
      var entries := seq(n, i requires 0 <= i < n => (order[i], m[order[i]]));
      var front := order[..n - 1];
      SumCountsOfTally(front, m);
      assert entries[..n - 1] == seq(|front|, i requires 0 <= i < |front| => (front[i], m[front[i]]));
    }
  }

  /** One more occurrence of `k` adds one to the sum exactly when `k` is listed. */
  lemma {:induction false} SumOverAdd<K(!new)>(order: seq<K>, m: multiset<K>, k: K)
    requires Distinct(order)
    ensures SumOver(order, m + multiset{k}) == SumOver(order, m) + (if k in order then 1 else 0)
    decreases |order|
  {
    if order != [] {
      var front := order[..|order| - 1];
      assert Distinct(front);
      SumOverAdd(front, m, k);
      assert k in order <==> k in front || k == order[|order| - 1] by {
        assert order == front + [order[|order| - 1]];
      }
      assert k == order[|order| - 1] ==> k !in front;
    }
  }

  /** The counts of the tally add up to the number of keys: every row with a value
      is counted exactly once. */
  lemma {:induction false} TallyTotal<K(!new)>(keys: seq<K>)
    ensures SumCounts(Tally(keys)) == |keys|
    decreases |keys|
  {
    SumCountsOfTally(FirstSeen(keys), multiset(keys));
    SumOverAll(keys);
  }

  lemma {:induction false} SumOverAll<K(!new)>(keys: seq<K>)
    ensures SumOver(FirstSeen(keys), multiset(keys)) == |keys|
    decreases |keys|
  {
    if keys != [] {
      var front := keys[..|keys| - 1];
      var k := keys[|keys| - 1];
      assert keys == front + [k];
      var order := FirstSeen(front);
      SumOverAll(front);
      SumOverAdd(order, multiset(front), k);
      assert multiset(keys) == multiset(front) + multiset{k};
      if k !in order {
        assert multiset(front)[k] == 0;
      }
    }
  }

  /** Each distinct key is listed once, with its number of occurrences, and nothing
      else is listed. */
  lemma TallyEntries<K(!new)>(keys: seq<K>)
    ensures forall i, j :: 0 <= i < j < |Tally(keys)| ==> Tally(keys)[i].0 != Tally(keys)[j].0
    ensures forall k :: k in keys <==> exists i :: 0 <= i < |Tally(keys)| && Tally(keys)[i].0 == k
    ensures forall i :: 0 <= i < |Tally(keys)| ==> Tally(keys)[i].1 == multiset(keys)[Tally(keys)[i].0] > 0
  {
    var order := FirstSeen(keys);
    forall i | 0 <= i < |order|
      ensures multiset(keys)[order[i]] > 0
    {
      assert order[i] in keys;
    }
    forall k | k in keys
      ensures exists i :: 0 <= i < |Tally(keys)| && Tally(keys)[i].0 == k
    {
      var i :| 0 <= i < |order| && order[i] == k;
      assert Tally(keys)[i].0 == k;
    }
  }

  /** One more element adds one to its own multiplicity and to no other. */
  lemma MultisetSnoc<T>(col: seq<T>, x: T)
    ensures forall y :: multiset(col + [x])[y] == multiset(col)[y] + (if x == y then 1 else 0)
  {
  }
}
