/** The stable sort the layouts rely on, as an ordering of indices by a two-part key. */
module Sorting {
  datatype Key = Key(major: real, minor: real)

  predicate Before(k: Key, l: Key) {
    k.major < l.major || (k.major == l.major && k.minor < l.minor)
  }

  /** `order` lists the first `n` indices once each, by key, and equal keys by index. */
  ghost predicate IsOrder(keys: seq<Key>, order: seq<nat>, n: nat)
    requires n <= |keys|
  {
    && |order| == n
    && (forall i :: 0 <= i < n ==> order[i] < n)
    && (forall x: nat :: x < n ==> x in order)
    && (forall i, j :: 0 <= i < j < n ==> Precedes(keys, order[i], order[j]))
  }

  predicate Precedes(keys: seq<Key>, x: nat, y: nat) {
    x < |keys| && y < |keys| && (Before(keys[x], keys[y]) || (!Before(keys[y], keys[x]) && x < y))
  }

  function Insert(keys: seq<Key>, order: seq<nat>, x: nat): (r: seq<nat>)
    requires x < |keys|
    requires forall i :: 0 <= i < |order| ==> order[i] < |keys|
  {
    if order == [] || !Before(keys[x], keys[order[|order| - 1]]) then order + [x]
    else Insert(keys, order[..|order| - 1], x) + [order[|order| - 1]]
  }

  lemma {:induction false} InsertedMembers(keys: seq<Key>, order: seq<nat>, x: nat)
    requires x < |keys|
    requires forall i :: 0 <= i < |order| ==> order[i] < |keys|
    ensures |Insert(keys, order, x)| == |order| + 1
    ensures forall y :: y in Insert(keys, order, x) <==> y in order || y == x
  {
    if order != [] && Before(keys[x], keys[order[|order| - 1]]) {
      var front, last := order[..|order| - 1], order[|order| - 1];
      InsertedMembers(keys, front, x);
      assert order == front + [last];
    }
  }

  /** One more index that follows all of them. */
  lemma Follows(keys: seq<Key>, order: seq<nat>, x: nat)
    requires forall i, j :: 0 <= i < j < |order| ==> Precedes(keys, order[i], order[j])
    requires forall i :: 0 <= i < |order| ==> Precedes(keys, order[i], x)
    ensures forall i, j :: 0 <= i < j < |order + [x]| ==> Precedes(keys, (order + [x])[i], (order + [x])[j])
  {
  }

  lemma {:induction false} Inserted(keys: seq<Key>, order: seq<nat>, x: nat)
    requires x < |keys|
    requires forall i :: 0 <= i < |order| ==> order[i] < x
    requires forall i, j :: 0 <= i < j < |order| ==> Precedes(keys, order[i], order[j])
    ensures var r := Insert(keys, order, x);
            && |r| == |order| + 1
            && (forall y :: y in r <==> y in order || y == x)
            && (forall i, j :: 0 <= i < j < |r| ==> Precedes(keys, r[i], r[j]))
  {
    InsertedMembers(keys, order, x);
    if order != [] && Before(keys[x], keys[order[|order| - 1]]) {
      var front, last := order[..|order| - 1], order[|order| - 1];
      Inserted(keys, front, x);
      var r := Insert(keys, front, x);
      forall i | 0 <= i < |r|
        ensures Precedes(keys, r[i], last)
      {
        assert r[i] in r;
        if r[i] != x {
          var k :| 0 <= k < |front| && front[k] == r[i];
          assert Precedes(keys, order[k], order[|order| - 1]);
        }
      }
      Follows(keys, r, last);
    } else {
      forall i | 0 <= i < |order|
        ensures Precedes(keys, order[i], x)
      {
        assert i < |order| - 1 ==> Precedes(keys, order[i], order[|order| - 1]);
      }
      Follows(keys, order, x);
    }
  }

  function Order(keys: seq<Key>, n: nat): (r: seq<nat>)
    requires n <= |keys|
    ensures IsOrder(keys, r, n)
  {
    if n == 0 then []
    else
      var before := Order(keys, n - 1);
      Inserted(keys, before, n - 1);
      var r := Insert(keys, before, n - 1);
      assert forall i :: 0 <= i < n ==> r[i] in r;
      r
  }

  /** The items in the given order. */
  function Arranged<T>(items: seq<T>, order: seq<nat>): (sorted: seq<T>)
    requires forall i :: 0 <= i < |order| ==> order[i] < |items|
    ensures |sorted| == |order| && forall i :: 0 <= i < |order| ==> sorted[i] == items[order[i]]
  {
    if order == [] then [] else Arranged(items, order[..|order| - 1]) + [items[order[|order| - 1]]]
  }

  /** The sort has no choice: two stable orders of the same keys agree. */
  lemma {:induction false} OrderIsUnique(keys: seq<Key>, a: seq<nat>, b: seq<nat>, n: nat)
    requires n <= |keys| && IsOrder(keys, a, n) && IsOrder(keys, b, n)
    ensures a == b
  {
    var k := 0;
    while k < n
      invariant k <= n && forall i :: 0 <= i < k ==> a[i] == b[i]
    {
      SameNext(keys, a, b, n, k);
      SameNext(keys, b, a, n, k);
      k := k + 1;
    }
  }

  lemma SameNext(keys: seq<Key>, a: seq<nat>, b: seq<nat>, n: nat, k: nat)
    requires n <= |keys| && IsOrder(keys, a, n) && IsOrder(keys, b, n)
    requires k < n && forall i :: 0 <= i < k ==> a[i] == b[i]
    ensures b[k] == a[k] || Precedes(keys, b[k], a[k])
  {
    assert forall j :: 0 <= j < k ==> Precedes(keys, a[j], a[k]) && b[j] != a[k];
    assert a[k] in b;
    var j :| 0 <= j < n && b[j] == a[k];
  }
}
