/** Lists whose elements have distinct keys, read as maps. */
module Keyed {
  ghost predicate Unique<K(!new), T(!new)>(s: seq<T>, key: T -> K) {
    forall i, j | 0 <= i < j < |s| :: key(s[i]) != key(s[j])
  }

  ghost function ToMap<K(!new), T(!new)>(s: seq<T>, key: T -> K): map<K, T> {
    if s == [] then map[] else ToMap(s[..|s| - 1], key)[key(s[|s| - 1]) := s[|s| - 1]]
  }

  /** m holds exactly the elements of s, each under its key. */
  ghost predicate Holds<K(!new), T(!new)>(m: map<K, T>, s: seq<T>, key: T -> K) {
    && (forall x | x in s :: key(x) in m && m[key(x)] == x)
    && (forall k | k in m :: m[k] in s && key(m[k]) == k)
  }

  lemma {:induction false} ToMapHolds<K(!new), T(!new)>(s: seq<T>, key: T -> K)
    requires Unique(s, key)
    ensures Holds(ToMap(s, key), s, key)
  {
    if s != [] {
      var n := |s| - 1;
      ToMapHolds(s[..n], key);
      assert s == s[..n] + [s[n]];
      assert forall x | x in s[..n] :: key(x) != key(s[n]);
    }
  }

  lemma HoldsOnce<K(!new), T(!new)>(a: map<K, T>, b: map<K, T>, s: seq<T>, key: T -> K)
    requires Holds(a, s, key) && Holds(b, s, key)
    ensures a == b
  {
    forall k ensures k in a <==> k in b {
      if k in a { assert a[k] in s; }
      if k in b { assert b[k] in s; }
    }
    forall k | k in a ensures a[k] == b[k] {
      assert a[k] in s;
    }
  }

  lemma Appended<K(!new), T(!new)>(s: seq<T>, x: T, key: T -> K)
    requires Unique(s, key) && key(x) !in ToMap(s, key)
    ensures Unique(s + [x], key) && ToMap(s + [x], key) == ToMap(s, key)[key(x) := x]
  {
    ToMapHolds(s, key);
    assert (s + [x])[..|s|] == s;
    assert forall i | 0 <= i < |s| :: s[i] in s;
  }

  lemma Replaced<K(!new), T(!new)>(s: seq<T>, i: nat, x: T, key: T -> K)
    requires Unique(s, key) && i < |s| && key(x) == key(s[i])
    ensures Unique(s[i := x], key) && ToMap(s[i := x], key) == ToMap(s, key)[key(x) := x]
  {
    var t, m := s[i := x], ToMap(s, key)[key(x) := x];
    ToMapHolds(s, key);
    ToMapHolds(t, key);
    forall y | y in t ensures key(y) in m && m[key(y)] == y {
      var j :| 0 <= j < |t| && t[j] == y;
      assert j != i ==> y == s[j];
    }
    forall k | k in m ensures m[k] in t && key(m[k]) == k {
      if k == key(x) {
        assert t[i] == x;
      } else {
        var j :| 0 <= j < |s| && s[j] == m[k];
        assert t[j] == s[j];
      }
    }
    HoldsOnce(ToMap(t, key), m, t, key);
  }

  lemma Removed<K(!new), T(!new)>(s: seq<T>, i: nat, key: T -> K)
    requires Unique(s, key) && i < |s|
    ensures var t := s[..i] + s[i + 1..]; Unique(t, key) && ToMap(t, key) == ToMap(s, key) - {key(s[i])}
  {
    var t := s[..i] + s[i + 1..];
    assert forall j | 0 <= j < |t| :: t[j] == s[if j < i then j else j + 1];
    ToMapHolds(s, key);
    ToMapHolds(t, key);
    RemovedHolds(s, i, t, ToMap(s, key), key);
    HoldsOnce(ToMap(t, key), ToMap(s, key) - {key(s[i])}, t, key);
  }

  lemma RemovedHolds<K(!new), T(!new)>(s: seq<T>, i: nat, t: seq<T>, m: map<K, T>, key: T -> K)
    requires Unique(s, key) && i < |s| && t == s[..i] + s[i + 1..] && Holds(m, s, key)
    ensures Holds(m - {key(s[i])}, t, key)
  {
    var w := m - {key(s[i])};
    forall y | y in t ensures key(y) in w && w[key(y)] == y {
      var j :| 0 <= j < |t| && t[j] == y;
      var l := if j < i then j else j + 1;
      assert y == s[l] && key(s[l]) != key(s[i]);
    }
    forall k | k in w ensures w[k] in t && key(w[k]) == k {
      var j :| 0 <= j < |s| && s[j] == w[k];
      assert t[if j < i then j else j - 1] == s[j];
    }
  }
}
