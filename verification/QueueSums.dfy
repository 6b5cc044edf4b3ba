/**
 Sums of money over a frozen queue. A ledger quantity is a partial map from job
 identifiers to amounts; its total is taken in queue order.
 */
module QueueSums {
  datatype Entry = Entry(id: string, reserve: real)

  type Queue = seq<Entry>

  ghost predicate DistinctIds(q: Queue) {
    forall i, j :: 0 <= i < j < |q| ==> q[i].id != q[j].id
  }

  function Ids(q: Queue): set<string> {
    set e | e in q :: e.id
  }

  function At(m: map<string, real>, id: string): real {
    if id in m then m[id] else 0.0
  }

  /** The total over the first `n` jobs. */
  function SumTo(q: Queue, m: map<string, real>, n: nat): real
    requires n <= |q|
  {
    if n == 0 then 0.0 else SumTo(q, m, n - 1) + At(m, q[n - 1].id)
  }

  function Sum(q: Queue, m: map<string, real>): real {
    SumTo(q, m, |q|)
  }

  lemma {:induction false} SumToMonotone(q: Queue, m: map<string, real>, n: map<string, real>, k: nat)
    requires k <= |q| && forall e :: e in q ==> At(m, e.id) <= At(n, e.id)
    ensures SumTo(q, m, k) <= SumTo(q, n, k)
  {
    if k != 0 {
      SumToMonotone(q, m, n, k - 1);
      assert q[k - 1] in q;
    }
  }

  lemma SumMonotone(q: Queue, m: map<string, real>, n: map<string, real>)
    requires forall e :: e in q ==> At(m, e.id) <= At(n, e.id)
    ensures Sum(q, m) <= Sum(q, n)
  {
    SumToMonotone(q, m, n, |q|);
  }

  lemma {:induction false} SumToAdds(q: Queue, m: map<string, real>, n: map<string, real>, t: map<string, real>, k: nat)
    requires k <= |q| && forall e :: e in q ==> At(t, e.id) == At(m, e.id) + At(n, e.id)
    ensures SumTo(q, t, k) == SumTo(q, m, k) + SumTo(q, n, k)
  {
    if k != 0 {
      SumToAdds(q, m, n, t, k - 1);
      assert q[k - 1] in q;
    }
  }

  lemma SumAdds(q: Queue, m: map<string, real>, n: map<string, real>, t: map<string, real>)
    requires forall e :: e in q ==> At(t, e.id) == At(m, e.id) + At(n, e.id)
    ensures Sum(q, t) == Sum(q, m) + Sum(q, n)
  {
    SumToAdds(q, m, n, t, |q|);
  }

  lemma {:induction false} SumToZero(q: Queue, k: nat)
    requires k <= |q|
    ensures SumTo(q, map[], k) == 0.0
  {
    if k != 0 {
      SumToZero(q, k - 1);
    }
  }

  lemma SumZero(q: Queue)
    ensures Sum(q, map[]) == 0.0
  {
    SumToZero(q, |q|);
  }

  lemma SumNothing(q: Queue, m: map<string, real>)
    requires forall e :: e in q ==> At(m, e.id) <= 0.0
    ensures Sum(q, m) <= 0.0
  {
    SumZero(q);
    SumMonotone(q, m, map[]);
  }

  lemma {:induction false} SumToChange(q: Queue, m: map<string, real>, n: map<string, real>, i: nat, k: nat)
    requires DistinctIds(q) && i < |q| && k <= |q|
    requires forall e :: e in q && e.id != q[i].id ==> At(m, e.id) == At(n, e.id)
    ensures SumTo(q, n, k) == SumTo(q, m, k) + (if i < k then At(n, q[i].id) - At(m, q[i].id) else 0.0)
  {
    if k != 0 {
      SumToChange(q, m, n, i, k - 1);
      if k - 1 != i {
        assert q[k - 1] in q && q[k - 1].id != q[i].id;
      }
    }
  }

  /** Changing one job's amount changes the total by exactly that difference. */
  lemma SumChange(q: Queue, m: map<string, real>, n: map<string, real>, id: string)
    requires DistinctIds(q) && id in Ids(q)
    requires forall e :: e in q && e.id != id ==> At(m, e.id) == At(n, e.id)
    ensures Sum(q, n) == Sum(q, m) - At(m, id) + At(n, id)
  {
    var e :| e in q && e.id == id;
    var i :| 0 <= i < |q| && q[i] == e;
    SumToChange(q, m, n, i, |q|);
  }

  ghost function IdsTo(q: Queue, n: nat): set<string>
    requires n <= |q|
  {
    if n == 0 then {} else IdsTo(q, n - 1) + {q[n - 1].id}
  }

  ghost predicate NamedBefore(q: Queue, n: nat, id: string)
    requires n <= |q|
  {
    exists i :: 0 <= i < n && q[i].id == id
  }

  lemma {:induction false} InPrefix(q: Queue, n: nat, id: string)
    requires n <= |q|
    ensures id in IdsTo(q, n) <==> NamedBefore(q, n, id)
  {
    if n > 0 {
      InPrefix(q, n - 1, id);
      assert NamedBefore(q, n, id) <==> NamedBefore(q, n - 1, id) || q[n - 1].id == id;
    }
  }

  lemma {:induction false} PrefixCount(q: Queue, n: nat)
    requires n <= |q| && DistinctIds(q)
    ensures |IdsTo(q, n)| == n
  {
    if n > 0 {
      PrefixCount(q, n - 1);
      InPrefix(q, n - 1, q[n - 1].id);
    }
  }

  /** A frozen queue has as many identifiers as jobs. */
  lemma DistinctCount(q: Queue)
    requires DistinctIds(q)
    ensures |Ids(q)| == |q|
  {
    PrefixCount(q, |q|);
    forall id
      ensures id in Ids(q) <==> id in IdsTo(q, |q|)
    {
      InPrefix(q, |q|, id);
      if NamedBefore(q, |q|, id) {
        var i :| 0 <= i < |q| && q[i].id == id;
        assert q[i] in q;
      }
      if id in Ids(q) {
        var e :| e in q && e.id == id;
      }
    }
    assert Ids(q) == IdsTo(q, |q|);
  }

  /** Names collected along the whole queue are all its names. */
  lemma SeenIsAll(q: Queue, seen: set<string>)
    requires forall id :: id in seen <==> NamedBefore(q, |q|, id)
    ensures seen == Ids(q)
  {
    forall e | e in q
      ensures e.id in seen
    {
      var j :| 0 <= j < |q| && q[j] == e;
      assert NamedBefore(q, |q|, e.id);
    }
  }
}
