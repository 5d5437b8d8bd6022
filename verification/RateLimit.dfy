/** The sliding-window limiter of failed logins (internal/auth/ratelimit.go): an in-place compaction per
    address, against counting over the full log of failures. */
module RateLimit {
  import opened Model
  import opened Heap

  /** In nanoseconds. */
  const MINUTE := 60_000_000_000

  datatype Failure = Failure(ip: string, at: Time)

  /** The failures of one address, oldest first. */
  function TimesOf(log: seq<Failure>, ip: string): seq<Time> {
    if log == [] then []
    else
      var n := |log| - 1;
      TimesOf(log[..n], ip) + if log[n].ip == ip then [log[n].at] else []
  }

  /** Those after the cutoff, order kept. */
  function Recent(ts: seq<Time>, cutoff: Time): seq<Time> {
    if ts == [] then []
    else
      var n := |ts| - 1;
      Recent(ts[..n], cutoff) + if ts[n] > cutoff then [ts[n]] else []
  }

  /** Where the failures of one address after the cutoff are in the log. */
  function Since(log: seq<Failure>, ip: string, cutoff: Time): set<int> {
    set i | 0 <= i < |log| && log[i].ip == ip && log[i].at > cutoff
  }

  lemma {:induction false} RecentIsSince(log: seq<Failure>, ip: string, cutoff: Time)
    ensures |Recent(TimesOf(log, ip), cutoff)| == |Since(log, ip, cutoff)|
  {
    if log != [] {
      var n := |log| - 1;
      var s, ts := log[..n], TimesOf(log[..n], ip);
      RecentIsSince(s, ip, cutoff);
      assert (ts + [log[n].at])[..|ts|] == ts && ts + [] == ts;
      SinceLonger(s, log[n], ip, cutoff);
      assert s + [log[n]] == log;
    }
  }

  lemma SinceLonger(log: seq<Failure>, f: Failure, ip: string, cutoff: Time)
    ensures |Since(log + [f], ip, cutoff)| == |Since(log, ip, cutoff)| + if f.ip == ip && f.at > cutoff then 1 else 0
  {
    assert Since(log + [f], ip, cutoff)
        == Since(log, ip, cutoff) + if f.ip == ip && f.at > cutoff then {|log|} else {};
  }

  lemma {:induction false} RecentLength(ts: seq<Time>, c: Time, later: Time)
    requires c <= later
    ensures |Recent(ts, later)| <= |Recent(ts, c)| <= |ts|
  {
    if ts != [] {
      RecentLength(ts[..|ts| - 1], c, later);
    }
  }

  /** The stored list gives the same answer as the whole for every cutoff from lo on, and never counts more. */
  ghost predicate Agree(stored: seq<Time>, all: seq<Time>, lo: Time) {
    && (forall c | c >= lo :: Recent(stored, c) == Recent(all, c))
    && (forall c :: |Recent(stored, c)| <= |Recent(all, c)|)
  }

  function Max(a: Time, b: Time): Time {
    if a < b then b else a
  }

  lemma {:induction false} RecentNested(ts: seq<Time>, c: Time, d: Time)
    ensures Recent(Recent(ts, c), d) == Recent(ts, Max(c, d))
  {
    if ts != [] {
      var n := |ts| - 1;
      var s := Recent(ts[..n], c);
      RecentNested(ts[..n], c, d);
      if ts[n] > c {
        assert (s + [ts[n]])[..|s|] == s;
      } else {
        assert Recent(ts, c) == s;
      }
    }
  }

  /** Pruning at any cutoff, the clock's latest or an earlier one, loses no answer from the latest on. */
  lemma AgreePruned(stored: seq<Time>, all: seq<Time>, lo: Time, cutoff: Time)
    requires Agree(stored, all, lo)
    ensures Agree(Recent(stored, cutoff), all, Max(lo, cutoff))
  {
    forall c
      ensures |Recent(Recent(stored, cutoff), c)| <= |Recent(all, c)|
      ensures c >= Max(lo, cutoff) ==> Recent(Recent(stored, cutoff), c) == Recent(all, c)
    {
      RecentNested(stored, cutoff, c);
      RecentLength(stored, c, Max(cutoff, c));
    }
  }

  lemma AgreeAppended(stored: seq<Time>, all: seq<Time>, lo: Time, t: Time)
    requires Agree(stored, all, lo)
    ensures Agree(stored + [t], all + [t], lo)
  {
    assert (stored + [t])[..|stored|] == stored && (all + [t])[..|all|] == all;
    forall c ensures |Recent(stored + [t], c)| <= |Recent(all + [t], c)| {
      assert |Recent(stored, c)| <= |Recent(all, c)|;
    }
    forall c | c >= lo ensures Recent(stored + [t], c) == Recent(all + [t], c) {
      assert Recent(stored, c) == Recent(all, c);
    }
  }

  lemma AgreeLater(stored: seq<Time>, all: seq<Time>, lo: Time, later: Time)
    requires Agree(stored, all, lo) && lo <= later
    ensures Agree(stored, all, later)
  {
  }

  function Get(m: map<string, seq<Time>>, ip: string): seq<Time> {
    if ip in m then m[ip] else []
  }

  /** The stored lists and the log agree, for every address, on every cutoff that can still be asked about. */
  ghost predicate Tracks(m: map<string, seq<Time>>, log: seq<Failure>, lo: Time) {
    forall ip {:trigger Agree(Get(m, ip), TimesOf(log, ip), lo)} :: Agree(Get(m, ip), TimesOf(log, ip), lo)
  }

  lemma PruneTracks(m: map<string, seq<Time>>, log: seq<Failure>, lo: Time, ip: string, cutoff: Time)
    requires Tracks(m, log, lo)
    ensures Tracks(m[ip := Recent(Get(m, ip), cutoff)], log, Max(lo, cutoff))
    ensures |Recent(TimesOf(log, ip), Max(lo, cutoff))| <= |Recent(Get(m, ip), cutoff)|
    ensures |Recent(Get(m, ip), cutoff)| <= |Recent(TimesOf(log, ip), cutoff)|
    ensures cutoff >= lo ==> |Recent(Get(m, ip), cutoff)| == |Recent(TimesOf(log, ip), cutoff)|
  {
    var n, to := m[ip := Recent(Get(m, ip), cutoff)], Max(lo, cutoff);
    forall a ensures Agree(Get(n, a), TimesOf(log, a), to) {
      assert Agree(Get(m, a), TimesOf(log, a), lo);
      if a == ip {
        AgreePruned(Get(m, ip), TimesOf(log, ip), lo, cutoff);
      } else {
        AgreeLater(Get(m, a), TimesOf(log, a), lo, to);
      }
    }
    assert Agree(Get(m, ip), TimesOf(log, ip), lo);
    RecentLength(Get(m, ip), cutoff, to);
  }

  lemma PushTracks(m: map<string, seq<Time>>, log: seq<Failure>, lo: Time, ip: string, at: Time)
    requires Tracks(m, log, lo)
    ensures Tracks(m[ip := Get(m, ip) + [at]], log + [Failure(ip, at)], lo)
  {
    var n, more := m[ip := Get(m, ip) + [at]], log + [Failure(ip, at)];
    assert more[..|log|] == log;
    forall a ensures Agree(Get(n, a), TimesOf(more, a), lo) {
      assert Agree(Get(m, a), TimesOf(log, a), lo);
      if a == ip {
        AgreeAppended(Get(m, ip), TimesOf(log, ip), lo, at);
      } else {
        assert TimesOf(more, a) == TimesOf(log, a) && Get(n, a) == Get(m, a);
      }
    }
  }

  /** The slice is in bounds and holds ts. */
  ghost predicate Holds(s: Slice<Time>, ts: seq<Time>)
    reads s.arr
  {
    SliceOk(s) && Elems(s) == ts
  }

  class RateLimiter {
    const limit: int
    const window: int
    var hits: map<string, Slice<Time>>
    /** What hits holds, as values. */
    ghost var stored: map<string, seq<Time>>
    /** Whose list a backing array holds. */
    ghost var owner: map<array<Time>, string>
    /** Every failure ever recorded, and the latest cutoff a window was asked with. */
    ghost var log: seq<Failure>
    ghost var horizon: Time
    ghost var Repr: set<object>

    /** The entry of ip is its own and holds what is stored. */
    ghost predicate Slot(ip: string)
      requires ip in hits && ip in stored
      reads this`hits, this`stored, this`owner, hits[ip].arr
    {
      && (hits[ip].arr != null ==> hits[ip].arr in owner && owner[hits[ip].arr] == ip)
      && Holds(hits[ip], stored[ip])
    }

    /** Every entry other than ip's is in order. */
    ghost predicate ShapeBut(ip: Option<string>)
      reads this`hits, this`stored, this`owner, this`Repr, Repr - {this}
    {
      && this in Repr && limit >= 1 && window >= 1 && stored.Keys == hits.Keys
      && (forall a | a in hits && hits[a].arr != null :: hits[a].arr in Repr - {this})
      && forall a {:trigger Slot(a)} | a in hits && Some(a) != ip :: Slot(a)
    }

    ghost predicate Shape()
      reads this`hits, this`stored, this`owner, this`Repr, Repr - {this}
    {
      ShapeBut(None)
    }

    ghost predicate Valid()
      reads this, Repr
      ensures Valid() ==> this in Repr
    {
      Shape() && Tracks(stored, log, horizon)
    }

    constructor (limit: int, window: int, ghost start: Time)
      ensures Valid() && fresh(Repr) && log == [] && horizon == start
      ensures this.limit == if limit <= 0 then 10 else limit
      ensures this.window == if window <= 0 then 60_000_000_000 else window
    {
      this.limit := if limit <= 0 then 10 else limit;
      this.window := if window <= 0 then MINUTE else window;
      hits := map[];
      stored := map[];
      owner := map[];
      log := [];
      horizon := start;
      Repr := {this};
    }

    /** Compacts the survivors to the front of the same backing array. */
    method Compact(s: Slice<Time>, cutoff: Time) returns (kept: Slice<Time>)
      requires SliceOk(s)
      modifies s.arr
      ensures SliceOk(kept) && kept.arr == s.arr && Elems(kept) == Recent(old(Elems(s)), cutoff)
    {
      kept := s.(len := 0);
      for i := 0 to s.len
        invariant kept.arr == s.arr && kept.len <= i
        invariant s.arr != null ==> s.arr[i..] == old(s.arr[i..])
        invariant s.arr != null ==> s.arr[..kept.len] == Recent(old(s.arr[..i]), cutoff)
      {
        var t := s.arr[i];
        assert t == s.arr[i..][0] == old(s.arr[i..])[0] == old(s.arr[i]);
        ghost var done := old(s.arr[..i + 1]);
        assert done[..i] == old(s.arr[..i]) && done[i] == t;
        assert s.arr[i + 1..] == s.arr[i..][1..];
        if t > cutoff {
          s.arr[kept.len] := t;
          kept := kept.(len := kept.len + 1);
          assert s.arr[..kept.len] == s.arr[..kept.len - 1] + [t];
        }
      }
    }

    /** r.hits[ip]: a missing key reads as the nil slice. */
    function HitsOf(ip: string): Slice<Time>
      reads this`hits
    {
      if ip in hits then hits[ip] else Slice(null, 0)
    }

    /** r.hits[ip] = s; nobody else has its backing array. */
    method Set(ip: string, s: Slice<Time>, ghost ts: seq<Time>)
      requires ShapeBut(Some(ip)) && Holds(s, ts)
      requires s.arr != null && s.arr in owner ==> owner[s.arr] == ip
      modifies this`hits, this`stored, this`owner, this`Repr
      ensures Shape() && hits == old(hits)[ip := s] && stored == old(stored)[ip := ts]
      ensures Repr == old(Repr) + if s.arr == null then {} else {s.arr}
    {
      assert forall a | a in hits && a != ip :: Slot(a);
      hits, stored := hits[ip := s], stored[ip := ts];
      if s.arr != null {
        owner, Repr := owner[s.arr := ip], Repr + {s.arr};
      }
      forall a | a in hits ensures Slot(a) {
        if a != ip {
          assert old(Slot(a));
        }
      }
    }

    /** kept = r.hits[ip][:0] and the loop, on the same backing array. */
    method Shrink(ip: string, s: Slice<Time>, cutoff: Time) returns (kept: Slice<Time>)
      requires Shape() && s == HitsOf(ip)
      modifies this`hits, this`stored, this`owner, this`Repr, s.arr
      ensures Shape() && ip in hits && hits[ip] == kept && kept.len == |stored[ip]| && Repr == old(Repr)
      ensures stored == old(stored)[ip := Recent(Get(old(stored), ip), cutoff)]
    {
      assert ip in hits ==> Slot(ip);
      kept := Compact(s, cutoff);
      forall a | a in hits && a != ip ensures Slot(a) {
        assert old(Slot(a));
      }
      Set(ip, kept, Recent(Get(stored, ip), cutoff));
    }

    /** r.hits[ip] = append(s, t): in place if there is room. */
    method Push(ip: string, s: Slice<Time>, t: Time)
      requires Shape() && ip in hits && s == hits[ip]
      modifies this`hits, this`stored, this`owner, this`Repr, s.arr
      ensures Shape() && fresh(Repr - old(Repr))
      ensures stored == old(stored)[ip := Get(old(stored), ip) + [t]]
    {
      assert Slot(ip);
      var more := Append(s, t);
      forall a | a in hits && a != ip ensures Slot(a) {
        assert old(Slot(a));
      }
      Set(ip, more, Get(stored, ip) + [t]);
    }

    /** As many survive as the log has after the cutoff, unless the clock ran backwards: then the number lies
        between those of the latest window and of the one asked for. */
    method Prune(ip: string, cutoff: Time) returns (kept: Slice<Time>)
      requires Valid()
      modifies Repr
      ensures Valid() && Repr == old(Repr) && log == old(log) && horizon == Max(old(horizon), cutoff)
      ensures ip in hits && hits[ip] == kept
      ensures cutoff >= old(horizon) ==> kept.len == |Recent(TimesOf(log, ip), cutoff)|
      ensures |Recent(TimesOf(log, ip), horizon)| <= kept.len <= |Recent(TimesOf(log, ip), cutoff)|
    {
      PruneTracks(stored, log, horizon, ip, cutoff);
      var s := HitsOf(ip);
      horizon := Max(horizon, cutoff);
      kept := Shrink(ip, s, cutoff);
    }

    /** Under the limit exactly when fewer than limit failures of the whole log lie in the window. A clock that
        runs backwards lets no one in whom the latest window would keep out. */
    method Allowed(ip: string, now: Time) returns (r: bool)
      requires Valid()
      modifies Repr
      ensures Valid() && Repr == old(Repr) && log == old(log) && horizon == Max(old(horizon), now - window)
      ensures now - window >= old(horizon) ==> (r <==> |Since(log, ip, now - window)| < limit)
      ensures r ==> |Since(log, ip, horizon)| < limit
      ensures |Since(log, ip, now - window)| < limit ==> r
    {
      var cutoff := now - window;
      RecentIsSince(log, ip, cutoff);
      RecentIsSince(log, ip, Max(horizon, cutoff));
      var kept := Prune(ip, cutoff);
      r := kept.len < limit;
    }

    /** Reads the clock twice: to prune, and for the time it records. */
    method RecordFailure(ip: string, now: Time, at: Time)
      requires Valid()
      modifies Repr
      ensures Valid() && fresh(Repr - old(Repr)) && log == old(log) + [Failure(ip, at)]
      ensures horizon == Max(old(horizon), now - window)
    {
      var kept := Prune(ip, now - window);
      Note(ip, kept, at);
    }

    method Note(ip: string, kept: Slice<Time>, at: Time)
      requires Valid() && ip in hits && kept == hits[ip]
      modifies this`log, this`hits, this`stored, this`owner, this`Repr, kept.arr
      ensures Valid() && fresh(Repr - old(Repr)) && log == old(log) + [Failure(ip, at)]
    {
      PushTracks(stored, log, horizon, ip, at);
      log := log + [Failure(ip, at)];
      Push(ip, kept, at);
    }
  }
}
