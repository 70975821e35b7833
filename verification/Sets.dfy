/** Sizes of finite sets. */
module Sets {
  lemma {:induction false} SubsetSize<T>(s: set<T>, t: set<T>)
    requires s <= t
    ensures |s| <= |t|
  {
    if s != {} {
      var x :| x in s;
      SubsetSize(s - {x}, t - {x});
    }
  }

  function Image<K, V>(s: set<K>, m: map<K, V>): (r: set<V>)
    requires s <= m.Keys
  {
    set b | b in s :: m[b]
  }

  lemma {:induction false} ImageSize<K, V>(s: set<K>, m: map<K, V>)
    requires s <= m.Keys
    ensures |Image(s, m)| <= |s|
  {
    if s != {} {
      var x :| x in s;
      ImageSize(s - {x}, m);
      assert Image(s, m) <= Image(s - {x}, m) + {m[x]};
      SubsetSize(Image(s, m), Image(s - {x}, m) + {m[x]});
    }
  }

  lemma {:induction false} InjectiveImageSize<K, V>(s: set<K>, m: map<K, V>)
    requires s <= m.Keys
    requires forall x, y :: x in s && y in s && m[x] == m[y] ==> x == y
    ensures |Image(s, m)| == |s|
  {
    if s != {} {
      var x :| x in s;
      InjectiveImageSize(s - {x}, m);
      assert Image(s, m) == Image(s - {x}, m) + {m[x]};
    }
  }

  lemma FullSubset<T>(s: set<T>, t: set<T>)
    requires s <= t && |s| == |t|
    ensures s == t
  {
    if s != t {
      var x :| x in t && x !in s;
      SubsetSize(s, t - {x});
    }
  }

  /** The numbers below n. */
  function Below(n: nat): (r: set<nat>)
    ensures |r| == n
    ensures forall i: nat :: i in r <==> i < n
  {
    if n == 0 then {} else Below(n - 1) + {n - 1}
  }

  /** The elements of a sequence. */
  function Elements<T>(s: seq<T>): (r: set<T>) {
    set x | x in s
  }

  lemma {:induction false} ElementsSize<T>(s: seq<T>)
    ensures |Elements(s)| <= |s|
    ensures (forall i, j :: 0 <= i < j < |s| ==> s[i] != s[j]) ==> |Elements(s)| == |s|
  {
    if s != [] {
      var n := |s| - 1;
      ElementsSize(s[..n]);
      assert s == s[..n] + [s[n]];
      assert Elements(s) == Elements(s[..n]) + {s[n]};
    }
  }
}

/** Sums over finite maps. */
module Sums {
  ghost function Sum<K>(m: map<K, nat>): (r: nat)
    decreases |m|
  {
    if m == map[] then 0
    else
      var k :| k in m;
      m[k] + Sum(m - {k})
  }

  lemma {:induction false} SumWithout<K>(m: map<K, nat>, k: K)
    requires k in m
    ensures Sum(m) == m[k] + Sum(m - {k})
    decreases |m|
  {
    var q :| q in m && Sum(m) == m[q] + Sum(m - {q});
    if q != k {
      SumWithout(m - {q}, k);
      SumWithout(m - {k}, q);
      assert m - {q} - {k} == m - {k} - {q};
    }
  }
}
