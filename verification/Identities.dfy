/** Upstream identities and their one sorted listing (internal/health/health.go). */
module Identities {
  import opened Model

  datatype Identity = Identity(scheme: string, host: string, port: int, mode: string, caName: string)

  function IdentityOf(up: Upstream): Identity {
    if up.scheme == "https" then Identity(up.scheme, up.host, up.port, up.tls.mode, up.tls.caName)
    else Identity(up.scheme, up.host, up.port, "", "")
  }

  /** Two upstreams share an identity, hence a status, if and only if they are reached in the same way; what is set for
      TLS counts for https only. */
  lemma SameIdentityIff(u: Upstream, v: Upstream)
    ensures IdentityOf(u) == IdentityOf(v) <==>
      u.scheme == v.scheme && u.host == v.host && u.port == v.port && (u.scheme == "https" ==> u.tls == v.tls)
  {
  }

  /** Lexicographic order of strings. */
  predicate StringLess(a: string, b: string) {
    if b == "" then false
    else if a == "" then true
    else if a[0] != b[0] then a[0] < b[0]
    else StringLess(a[1..], b[1..])
  }

  /** The first difference decides, and a proper prefix comes first. */
  lemma {:induction false} StringLessIff(a: string, b: string)
    ensures StringLess(a, b) <==>
      exists k :: 0 <= k <= |a| && k < |b| && a[..k] == b[..k] && (k == |a| || a[k] < b[k])
  {
    if a != "" && b != "" && a[0] == b[0] {
      var s, t := a[1..], b[1..];
      StringLessIff(s, t);
      assert a == [a[0]] + s && b == [b[0]] + t;
      if k :| 0 <= k <= |s| && k < |t| && s[..k] == t[..k] && (k == |s| || s[k] < t[k]) {
        assert a[..k + 1] == [a[0]] + s[..k] && b[..k + 1] == [b[0]] + t[..k];
      }
      if k :| 0 <= k <= |a| && k < |b| && a[..k] == b[..k] && (k == |a| || a[k] < b[k]) {
        assert k > 0 && s[..k - 1] == a[..k][1..] && t[..k - 1] == b[..k][1..];
      }
    } else {
      assert a[..0] == b[..0];
      assert forall k | 0 < k <= |a| && k < |b| :: a[..k][0] == a[0] && b[..k][0] == b[0];
    }
  }

  lemma {:induction false} StringOrder(a: string, b: string)
    ensures !StringLess(a, a)
    ensures a != b ==> StringLess(a, b) != StringLess(b, a)
  {
    if a != "" {
      StringOrder(a[1..], if b == "" then "" else b[1..]);
      if b != "" && a[0] == b[0] {
        assert a == [a[0]] + a[1..] && b == [b[0]] + b[1..];
      }
    }
  }

  lemma {:induction false} StringTransitive(a: string, b: string, c: string)
    requires StringLess(a, b) && StringLess(b, c)
    ensures StringLess(a, c)
  {
    if a != "" && a[0] == b[0] == c[0] {
      StringTransitive(a[1..], b[1..], c[1..]);
    }
  }

  /** The comparator of sortIdentities. */
  predicate Less(a: Identity, b: Identity) {
    if a.host != b.host then StringLess(a.host, b.host)
    else if a.port != b.port then a.port < b.port
    else if a.scheme != b.scheme then StringLess(a.scheme, b.scheme)
    else if a.mode != b.mode then StringLess(a.mode, b.mode)
    else StringLess(a.caName, b.caName)
  }

  /** Host, port, scheme, mode and CA name decide in this order. */
  lemma LessIff(a: Identity, b: Identity)
    ensures Less(a, b) <==>
      || StringLess(a.host, b.host)
      || (a.host == b.host && a.port < b.port)
      || (a.host == b.host && a.port == b.port && StringLess(a.scheme, b.scheme))
      || (a.host == b.host && a.port == b.port && a.scheme == b.scheme && StringLess(a.mode, b.mode))
      || (a.host == b.host && a.port == b.port && a.scheme == b.scheme && a.mode == b.mode
          && StringLess(a.caName, b.caName))
  {
    StringOrder(a.host, b.host);
    StringOrder(a.scheme, b.scheme);
    StringOrder(a.mode, b.mode);
  }

  /** It is a strict total order, so what sorting yields does not depend on the algorithm or the input order. */
  lemma LessIsTotalOrder(a: Identity, b: Identity, c: Identity)
    ensures !Less(a, a)
    ensures a != b ==> Less(a, b) != Less(b, a)
    ensures Less(a, b) && Less(b, c) ==> Less(a, c)
  {
    StringOrder(a.host, b.host);
    StringOrder(a.scheme, b.scheme);
    StringOrder(a.mode, b.mode);
    StringOrder(a.caName, b.caName);
    StringOrder(a.host, c.host);
    StringOrder(a.scheme, c.scheme);
    StringOrder(a.mode, c.mode);
    if Less(a, b) && Less(b, c) {
      if StringLess(a.host, b.host) && StringLess(b.host, c.host) {
        StringTransitive(a.host, b.host, c.host);
      }
      if StringLess(a.scheme, b.scheme) && StringLess(b.scheme, c.scheme) {
        StringTransitive(a.scheme, b.scheme, c.scheme);
      }
      if StringLess(a.mode, b.mode) && StringLess(b.mode, c.mode) {
        StringTransitive(a.mode, b.mode, c.mode);
      }
      if StringLess(a.caName, b.caName) && StringLess(b.caName, c.caName) {
        StringTransitive(a.caName, b.caName, c.caName);
      }
    }
  }

  /** r lists s without repetition, in order. */
  ghost predicate Lists(r: seq<Identity>, s: set<Identity>) {
    && (forall i, j | 0 <= i < j < |r| :: Less(r[i], r[j]))
    && (forall x :: x in s <==> x in r)
  }

  /** There is only one such list. */
  lemma {:induction false} ListingUnique(r: seq<Identity>, t: seq<Identity>, s: set<Identity>)
    requires Lists(r, s) && Lists(t, s)
    ensures r == t
  {
    assert (r != [] ==> r[0] in s) && (t != [] ==> t[0] in s);
    if r != [] {
      var x, y := r[0], t[0];
      assert x in t && y in r;
      if x != y {
        assert Less(x, y) && Less(y, x);
        LessIsTotalOrder(x, y, x);
      }
      TailLists(r, s);
      TailLists(t, s);
      ListingUnique(r[1..], t[1..], s - {x});
      assert r == [x] + r[1..] && t == [x] + t[1..];
    }
  }

  lemma TailLists(r: seq<Identity>, s: set<Identity>)
    requires Lists(r, s) && r != []
    ensures Lists(r[1..], s - {r[0]})
  {
    LessIsTotalOrder(r[0], r[0], r[0]);
    assert r == [r[0]] + r[1..];
    assert r[0] !in r[1..];
  }

  function SetOf(ids: seq<Identity>): set<Identity> {
    set x | x in ids
  }

  /** Stands for the library's sort. */
  method Sort(ids: seq<Identity>) returns (r: seq<Identity>)
    requires forall i, j | 0 <= i < j < |ids| :: ids[i] != ids[j]
    ensures Lists(r, SetOf(ids))
  {
    r := [];
    for i := 0 to |ids|
      invariant Lists(r, SetOf(ids[..i]))
    {
      r := Insert(r, ids[i], SetOf(ids[..i]));
      assert ids[..i + 1] == ids[..i] + [ids[i]];
      assert SetOf(ids[..i + 1]) == SetOf(ids[..i]) + {ids[i]};
    }
    assert ids[..|ids|] == ids;
  }

  method Insert(t: seq<Identity>, x: Identity, ghost s: set<Identity>) returns (r: seq<Identity>)
    requires Lists(t, s) && x !in s
    ensures Lists(r, s + {x})
  {
    var k := 0;
    while k < |t| && Less(t[k], x)
      invariant 0 <= k <= |t| && forall i | 0 <= i < k :: Less(t[i], x)
    {
      k := k + 1;
    }
    r := t[..k] + [x] + t[k..];
    forall i | k <= i < |t|
      ensures Less(x, t[i])
    {
      assert t[k] in s && t[i] in s;
      LessIsTotalOrder(x, t[k], t[i]);
    }
    forall y
      ensures y in s + {x} <==> y in r
    {
      assert t == t[..k] + t[k..];
    }
  }

  function UpstreamIdentities(lbs: seq<LoadBalancer>): set<Identity> {
    set b, m | b in lbs && m in b.mappings :: IdentityOf(m.upstream)
  }

  /** The identities the mappings use: deduplicated, then sorted. */
  method IdentitiesFrom(st: State) returns (out: seq<Identity>)
    ensures Lists(out, UpstreamIdentities(st.lbs))
  {
    var seen: set<Identity> := {};
    var found: seq<Identity> := [];
    for i := 0 to |st.lbs|
      invariant seen == UpstreamIdentities(st.lbs[..i]) && NoRepeats(found, seen)
    {
      var lb := st.lbs[i];
      for k := 0 to |lb.mappings|
        invariant seen == UpstreamIdentities(st.lbs[..i]) + (set m | m in lb.mappings[..k] :: IdentityOf(m.upstream))
        invariant NoRepeats(found, seen)
      {
        var id := IdentityOf(lb.mappings[k].upstream);
        if id !in seen {
          seen := seen + {id};
          found := found + [id];
        }
        assert lb.mappings[..k + 1] == lb.mappings[..k] + [lb.mappings[k]];
      }
      assert lb.mappings[..|lb.mappings|] == lb.mappings;
      assert st.lbs[..i + 1] == st.lbs[..i] + [lb];
    }
    assert st.lbs[..|st.lbs|] == st.lbs;
    out := Sort(found);
    assert SetOf(found) == seen;
  }

  ghost predicate NoRepeats(r: seq<Identity>, s: set<Identity>) {
    && (forall i, j | 0 <= i < j < |r| :: r[i] != r[j])
    && (forall x :: x in s <==> x in r)
  }
}
