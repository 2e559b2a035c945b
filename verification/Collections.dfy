/** Facts about the built-in collections that several components share. */
module Collections {

  datatype Option<+T> = None | Some(value: T) {
    function GetOr(default: T): T {
      if Some? then value else default
    }
  }

  lemma {:induction false} SubsetCard<T>(a: set<T>, b: set<T>)
    requires a <= b
    ensures |a| <= |b|
    decreases a
  {
    if a != {} {
      var x :| x in a;
      SubsetCard(a - {x}, b - {x});
    }
  }

  lemma CardAddOne<T>(a: set<T>, b: set<T>, x: T)
    requires a <= b + {x}
    ensures |a| <= |b| + 1
  {
    SubsetCard(a, b + {x});
  }

  ghost predicate Injective<K, V>(m: map<K, V>) {
    forall a, b :: a in m && b in m && m[a] == m[b] ==> a == b
  }

  lemma {:induction false} InjectiveCard<K, V>(m: map<K, V>)
    requires Injective(m)
    ensures |m.Values| == |m|
    decreases m.Keys
  {
    if m.Keys == {} {
      assert m.Values == {} && |m| == |m.Keys|;
    } else {
      var k :| k in m.Keys;
      var rest := m - {k};
      InjectiveCard(rest);
      assert m.Values == rest.Values + {m[k]};
      assert m.Keys == rest.Keys + {k};
      assert |m| == |m.Keys| && |rest| == |rest.Keys|;
    }
  }

  lemma AddEntry<K, V>(m: map<K, V>, k: K, v: V)
    requires k !in m
    ensures m[k := v].Values == m.Values + {v}
    ensures |m[k := v]| == |m| + 1
  {
    var next := m[k := v];
    assert next.Values == m.Values + {v} by {
      assert forall x :: x in m ==> x in next && next[x] == m[x];
      assert k in next;
    }
    assert |next| == |m| + 1 by {
      assert next.Keys == m.Keys + {k} && |next| == |next.Keys|;
    }
  }

  ghost function KeyOf<K, V>(m: map<K, V>, v: V): (k: K)
    requires v in m.Values
    ensures k in m && m[k] == v
  {
    assert exists k :: k in m && m[k] == v;
    var k :| k in m && m[k] == v; k
  }

  ghost function Inverse<K, V>(m: map<K, V>): map<V, K>
    requires Injective(m)
  {
    map v | v in m.Values :: KeyOf(m, v)
  }

  lemma InverseEntries<K, V>(m: map<K, V>)
    requires Injective(m)
    ensures Injective(Inverse(m)) && |Inverse(m)| == |m|
    ensures forall v :: v in Inverse(m) ==> Inverse(m)[v] in m && m[Inverse(m)[v]] == v
  {
    InjectiveCard(m);
    assert Inverse(m).Keys == m.Values;
  }

  function Filter<T>(keep: T -> bool, s: seq<T>): seq<T> {
    if s == [] then []
    else Filter(keep, s[..|s| - 1]) + if keep(s[|s| - 1]) then [s[|s| - 1]] else []
  }

  lemma {:induction false} FilterFacts<T>(keep: T -> bool, s: seq<T>)
    ensures forall x :: x in Filter(keep, s) <==> x in s && keep(x)
  {
    if s != [] {
      FilterFacts(keep, s[..|s| - 1]);
      assert s == s[..|s| - 1] + [s[|s| - 1]];
    }
  }

  lemma {:induction false} FilterMultiset<T>(keep: T -> bool, s: seq<T>, x: T)
    ensures multiset(Filter(keep, s))[x] == if keep(x) then multiset(s)[x] else 0
  {
    if s != [] {
      FilterMultiset(keep, s[..|s| - 1], x);
      assert s == s[..|s| - 1] + [s[|s| - 1]];
    }
  }

  lemma FilterCount<T(!new)>(keep: T -> bool, a: seq<T>, b: seq<T>)
    requires multiset(a) == multiset(b)
    ensures |Filter(keep, a)| == |Filter(keep, b)|
  {
    var p, q := Filter(keep, a), Filter(keep, b);
    forall x ensures multiset(p)[x] == multiset(q)[x] {
      FilterMultiset(keep, a, x);
      FilterMultiset(keep, b, x);
    }
    assert multiset(p) == multiset(q);
    assert |p| == |multiset(p)| && |q| == |multiset(q)|;
  }

  lemma {:induction false} FilterConcat<T>(keep: T -> bool, a: seq<T>, b: seq<T>)
    ensures Filter(keep, a + b) == Filter(keep, a) + Filter(keep, b)
  {
    if b == [] {
      assert a + b == a;
    } else {
      FilterConcat(keep, a, b[..|b| - 1]);
      assert (a + b)[..|a + b| - 1] == a + b[..|b| - 1];
    }
  }
}
