/** Totals over the values of a finite map, independent of the order of its keys. */
module Totals {
  import opened Types

  /** The sum of all values of `m`. */
  ghost function Sum(m: map<Address, nat>): nat
    decreases |m|
  {
    if m == map[] then 0
    else
      var k :| k in m;
      m[k] + Sum(m - {k})
  }

  /** The sum does not depend on which key is taken first. */
  lemma {:induction false} SumRemove(m: map<Address, nat>, k: Address)
    requires k in m
    ensures Sum(m) == m[k] + Sum(m - {k})
    decreases |m|
  {
    var j :| j in m && Sum(m) == m[j] + Sum(m - {j});
    if j != k {
      SumRemove(m - {j}, k);
      SumRemove(m - {k}, j);
      assert m - {j} - {k} == m - {k} - {j};
    }
  }

  lemma SumUpdate(m: map<Address, nat>, k: Address, v: nat)
    requires k in m
    ensures Sum(m[k := v]) == Sum(m) - m[k] + v
  {
    SumRemove(m, k);
    SumRemove(m[k := v], k);
    assert m[k := v] - {k} == m - {k};
  }

  /** The union of all values of `m`, with multiplicity. */
  ghost function Union(m: map<Address, multiset<Message>>): multiset<Message>
    decreases |m|
  {
    if m == map[] then multiset{}
    else
      var k :| k in m;
      m[k] + Union(m - {k})
  }

  lemma {:induction false} UnionRemove(m: map<Address, multiset<Message>>, k: Address)
    requires k in m
    ensures Union(m) == m[k] + Union(m - {k})
    decreases |m|
  {
    var j :| j in m && Union(m) == m[j] + Union(m - {j});
    if j != k {
      UnionRemove(m - {j}, k);
      UnionRemove(m - {k}, j);
      assert m - {j} - {k} == m - {k} - {j};
    }
  }

  function Plus(f: map<Address, multiset<Message>>, g: map<Address, multiset<Message>>):
    (h: map<Address, multiset<Message>>)
    requires f.Keys == g.Keys
  {
    map k | k in f :: f[k] + g[k]
  }

  lemma PlusRemove(f: map<Address, multiset<Message>>, g: map<Address, multiset<Message>>, k: Address)
    requires f.Keys == g.Keys && k in f
    ensures (f - {k}).Keys == (g - {k}).Keys && Plus(f, g)[k] == f[k] + g[k]
    ensures Plus(f, g) - {k} == Plus(f - {k}, g - {k})
  {
  }

  lemma Regroup(a: multiset<Message>, b: multiset<Message>, c: multiset<Message>, d: multiset<Message>)
    ensures (a + b) + (c + d) == (a + c) + (b + d)
  {
  }

  lemma {:induction false} UnionPlus(f: map<Address, multiset<Message>>, g: map<Address, multiset<Message>>)
    requires f.Keys == g.Keys
    ensures Union(Plus(f, g)) == Union(f) + Union(g)
    decreases |f|
  {
    if f == map[] {
      assert Plus(f, g) == map[] && g == map[];
    } else {
      var k :| k in f;
      UnionRemove(f, k);
      UnionRemove(g, k);
      UnionRemove(Plus(f, g), k);
      PlusRemove(f, g, k);
      UnionPlus(f - {k}, g - {k});
      hide Union, Plus;
      Regroup(f[k], g[k], Union(f - {k}), Union(g - {k}));
    }
  }

  /** Values that are empty do not matter. */
  lemma {:induction false} UnionRestrict(m: map<Address, multiset<Message>>, n: map<Address, multiset<Message>>)
    requires n.Keys <= m.Keys && forall k | k in n :: n[k] == m[k]
    requires forall k | k in m && k !in n :: m[k] == multiset{}
    ensures Union(m) == Union(n)
    decreases |m|
  {
    if m == map[] {
      assert n == map[];
    } else {
      var k :| k in m;
      UnionRemove(m, k);
      if k in n {
        UnionRemove(n, k);
        UnionRestrict(m - {k}, n - {k});
      } else {
        UnionRestrict(m - {k}, n);
      }
    }
  }

  /** All messages held by the values of `m`, with multiplicity. */
  ghost function Gather(m: map<Address, seq<Message>>): multiset<Message> {
    Union(map k | k in m :: multiset(m[k]))
  }

  lemma GatherRemove(m: map<Address, seq<Message>>, k: Address)
    requires k in m
    ensures Gather(m) == multiset(m[k]) + Gather(m - {k})
  {
    var n := map j | j in m :: multiset(m[j]);
    UnionRemove(n, k);
    assert n - {k} == map j | j in m - {k} :: multiset((m - {k})[j]);
  }

  lemma OneMore(fewer: nat, more: nat, bound: nat)
    requires more == fewer + 1
    ensures more * bound == fewer * bound + bound
  {
  }

  lemma {:induction false} SumBound(m: map<Address, nat>, bound: nat)
    requires forall k | k in m :: m[k] <= bound
    ensures Sum(m) <= |m| * bound
    decreases |m|
  {
    if m != map[] {
      var k :| k in m;
      SumRemove(m, k);
      var rest := m - {k};
      assert rest.Keys == m.Keys - {k};
      SumBound(rest, bound);
      hide Sum;
      OneMore(|rest|, |m|, bound);
    }
  }
}
