/** sort.Strings and the iteration order of Go maps: keys come out of a map in any
    order, and sorting them gives one canonical sequence. */
module Ordering {

  /** Byte-wise comparison of strings. */
  predicate Less(a: string, b: string) {
    b != "" && (a == "" || a[0] < b[0] || (a[0] == b[0] && Less(a[1..], b[1..])))
  }

  lemma {:induction false} LessIsStrict(a: string, b: string)
    ensures !(Less(a, b) && Less(b, a))
    ensures !Less(a, a)
  {
    if a != "" {
      LessIsStrict(a[1..], if b == "" then "" else b[1..]);
    }
  }

  lemma {:induction false} LessIsTotal(a: string, b: string)
    ensures a == b || Less(a, b) || Less(b, a)
  {
    if a != "" && b != "" && a[0] == b[0] {
      LessIsTotal(a[1..], b[1..]);
      assert a == [a[0]] + a[1..];
      assert b == [b[0]] + b[1..];
    }
  }

  lemma {:induction false} LessIsTransitive(a: string, b: string, c: string)
    requires Less(a, b) && Less(b, c)
    ensures Less(a, c)
  {
    if a != "" && a[0] == b[0] && b[0] == c[0] {
      LessIsTransitive(a[1..], b[1..], c[1..]);
    }
  }

  ghost predicate IsLeast(m: string, keys: set<string>) {
    m in keys && forall k | k in keys :: k == m || Less(m, k)
  }

  lemma {:induction false} LeastExists(keys: set<string>)
    requires keys != {}
    ensures exists m :: IsLeast(m, keys)
    decreases |keys|
  {
    var x :| x in keys;
    if keys == {x} {
      assert IsLeast(x, keys);
    } else {
      assert keys - {x} != {};
      LeastExists(keys - {x});
      var m :| IsLeast(m, keys - {x});
      LessIsTotal(x, m);
      if Less(x, m) {
        forall k | k in keys && k != x
          ensures Less(x, k)
        {
          if k != m {
            LessIsTransitive(x, m, k);
          }
        }
        assert IsLeast(x, keys);
      } else {
        assert IsLeast(m, keys);
      }
    }
  }

  ghost function Least(keys: set<string>): (m: string)
    requires keys != {}
    ensures IsLeast(m, keys)
  {
    LeastExists(keys);
    var m :| IsLeast(m, keys);
    m
  }

  ghost predicate StrictlySorted(ks: seq<string>) {
    forall i, j | 0 <= i < j < |ks| :: Less(ks[i], ks[j])
  }

  /** The keys of a map in the order sort.Strings gives them. */
  ghost function Sorted(keys: set<string>): (ks: seq<string>)
    ensures forall k :: k in ks <==> k in keys
    ensures StrictlySorted(ks)
    decreases |keys|
  {
    if keys == {} then [] else
      var m := Least(keys);
      [m] + Sorted(keys - {m})
  }

  lemma {:induction false} SortedIsUnique(a: seq<string>, b: seq<string>)
    requires StrictlySorted(a) && StrictlySorted(b)
    requires forall k :: k in a <==> k in b
    ensures a == b
  {
    assert b != [] ==> b[0] in a;
    if a != [] {
      assert a[0] in b;
      assert b[0] in a;
      var i :| 0 <= i < |b| && b[i] == a[0];
      var j :| 0 <= j < |a| && a[j] == b[0];
      LessIsStrict(a[0], b[0]);
      assert a[0] == b[0];
      forall k
        ensures k in a[1..] <==> k in b[1..]
      {
        TailMembers(a, k);
        TailMembers(b, k);
      }
      SortedIsUnique(a[1..], b[1..]);
    }
  }

  lemma TailMembers(a: seq<string>, k: string)
    requires a != [] && StrictlySorted(a)
    ensures k in a[1..] <==> k in a && k != a[0]
  {
    LessIsStrict(a[0], a[0]);
  }

  /** What `for k := range m` visits: each key once, in no particular order. */
  method RangeKeys<V>(m: map<string, V>) returns (ks: seq<string>)
    ensures forall k :: k in ks <==> k in m
    ensures forall i, j | 0 <= i < j < |ks| :: ks[i] != ks[j]
  {
    ks := [];
    var rest := m.Keys;
    while rest != {}
      invariant rest <= m.Keys
      invariant forall k :: k in ks <==> k in m && k !in rest
      invariant forall i, j | 0 <= i < j < |ks| :: ks[i] != ks[j]
      decreases rest
    {
      var k :| k in rest;
      ks, rest := ks + [k], rest - {k};
    }
  }

  /** sort.Strings on distinct keys, by insertion. */
  method SortStrings(keys: seq<string>) returns (r: seq<string>)
    requires forall i, j | 0 <= i < j < |keys| :: keys[i] != keys[j]
    ensures r == Sorted(set k | k in keys)
  {
    r := [];
    var n := 0;
    while n < |keys|
      invariant 0 <= n <= |keys|
      invariant StrictlySorted(r)
      invariant forall k :: k in r <==> k in keys[..n]
    {
      r := Insert(r, keys[n]);
      assert keys[..n + 1] == keys[..n] + [keys[n]];
      n := n + 1;
    }
    assert keys[..n] == keys;
    SortedIsUnique(r, Sorted(set k | k in keys));
  }

  /** The keys of a map, collected and then sorted. */
  method SortedKeys<V>(m: map<string, V>) returns (ks: seq<string>)
    ensures ks == Sorted(m.Keys)
  {
    var found := RangeKeys(m);
    ks := SortStrings(found);
    assert (set k | k in found) == m.Keys;
  }

  method Insert(r: seq<string>, k: string) returns (s: seq<string>)
    requires StrictlySorted(r) && k !in r
    ensures StrictlySorted(s)
    ensures forall x :: x in s <==> x in r || x == k
  {
    var i := 0;
    while i < |r| && Less(r[i], k)
      invariant 0 <= i <= |r|
      invariant forall j | 0 <= j < i :: Less(r[j], k)
    {
      i := i + 1;
    }
    forall j | i <= j < |r|
      ensures Less(k, r[j])
    {
      LessIsTotal(k, r[i]);
      if j != i {
        LessIsTransitive(k, r[i], r[j]);
      }
    }
    s := r[..i] + [k] + r[i..];
    forall x
      ensures x in s <==> x in r || x == k
    {
      assert r == r[..i] + r[i..];
    }
  }
}
