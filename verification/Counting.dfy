/** Counting the entries of a finite map that satisfy a predicate.  The protocol
    invariants equate a counter kept by the program with such a count. */
module Counting {

  ghost function Members<K, V>(m: map<K, V>, f: V -> bool): set<K> {
    set k | k in m && f(m[k])
  }

  ghost function Count<K, V>(m: map<K, V>, f: V -> bool): nat {
    |Members(m, f)|
  }

  ghost function One(b: bool): nat {
    if b then 1 else 0
  }

  lemma SizeWith<T>(s: set<T>, x: T)
    ensures |s + {x}| == |s| + One(x !in s)
  {
    if x in s {
      assert s + {x} == s;
    }
  }

  /** Rewriting one entry moves the count by what that entry contributed before and after. */
  lemma CountUpdate<K, V>(m: map<K, V>, k: K, v: V, f: V -> bool)
    ensures Count(m[k := v], f) == Count(m, f) - One(k in m && f(m[k])) + One(f(v))
  {
    var before, after := Members(m, f), Members(m[k := v], f);
    var rest := before - {k};
    SizeWith(rest, k);
    if k in before {
      assert before == rest + {k};
    } else {
      assert before == rest;
    }
    if f(v) {
      assert after == rest + {k};
    } else {
      assert after == rest;
    }
  }

  lemma CountPositive<K, V>(m: map<K, V>, f: V -> bool)
    ensures Count(m, f) > 0 <==> exists k :: k in m && f(m[k])
  {
    if exists k :: k in m && f(m[k]) {
      var k :| k in m && f(m[k]);
      assert k in Members(m, f);
    } else {
      assert Members(m, f) == {};
    }
  }

  lemma SubsetSize<T>(a: set<T>, b: set<T>)
    requires a <= b
    ensures |a| <= |b|
  {
    assert b == a + (b - a);
  }

  lemma CountMonotone<K, V>(m: map<K, V>, f: V -> bool, g: V -> bool)
    requires forall k :: k in m && f(m[k]) ==> g(m[k])
    ensures Count(m, f) <= Count(m, g)
  {
    SubsetSize(Members(m, f), Members(m, g));
  }
}
