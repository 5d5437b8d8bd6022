/** The login gate (internal/api/middleware.go): each request first asks the limiter, later records its failure
    or not. Requests interleave, so the check may be stale when the failure is recorded. */
module Auth {
  import opened Model
  import opened RateLimit

  datatype Status = RateLimited | Unauthorized | Passed

  /** One request with nobody in between. */
  method Handle(limiter: RateLimiter, ip: string, tokenOk: bool, now: Time, later: Time, at: Time) returns (r: Status)
    requires limiter.Valid()
    modifies limiter.Repr
    ensures limiter.Valid() && fresh(limiter.Repr - old(limiter.Repr))
    ensures r == RateLimited ==> |Since(old(limiter.log), ip, now - limiter.window)| >= limiter.limit
    ensures now - limiter.window >= old(limiter.horizon) ==>
      (r == RateLimited <==> |Since(old(limiter.log), ip, now - limiter.window)| >= limiter.limit)
    ensures r == Passed ==> tokenOk
    ensures r == Unauthorized ==> !tokenOk
    ensures limiter.log == old(limiter.log) + if r == Unauthorized then [Failure(ip, at)] else []
  {
    var allowed := limiter.Allowed(ip, now);
    if !allowed {
      return RateLimited;
    }
    if !tokenOk {
      limiter.RecordFailure(ip, later, at);
      return Unauthorized;
    }
    r := Passed;
  }

  /** One address at the gate. failures: the times of its recorded failures; pending: requests that were let in
      and have neither failed nor passed yet; clock: the latest reading. */
  datatype Gate = Gate(failures: seq<Time>, pending: nat, clock: Time)

  /** Ask: a request at time t, let in or not. Fail: one of the pending requests records its failure at t.
      Pass: one of them succeeds. */
  datatype Event = Ask(t: Time) | Fail(t: Time) | Pass

  /** The next state, None where the event cannot happen: k bounds the requests between check and outcome. */
  function Next(g: Gate, e: Event, limit: nat, window: nat, k: nat): Option<Gate> {
    match e
    case Ask(t) =>
      if t < g.clock then None
      else if |Recent(g.failures, t - window)| >= limit then Some(g.(clock := t))
      else if g.pending >= k then None
      else Some(g.(pending := g.pending + 1, clock := t))
    case Fail(t) =>
      if t < g.clock || g.pending == 0 then None
      else Some(Gate(g.failures + [t], g.pending - 1, t))
    case Pass =>
      if g.pending == 0 then None else Some(g.(pending := g.pending - 1))
  }

  function After(start: Time, es: seq<Event>, limit: nat, window: nat, k: nat): Option<Gate> {
    if es == [] then Some(Gate([], 0, start))
    else
      var g := After(start, es[..|es| - 1], limit, window, k);
      if g == None then None else Next(g.value, es[|es| - 1], limit, window, k)
  }

  /** Failures in the window that ends at t. */
  function InWindow(ts: seq<Time>, t: Time, window: nat): nat {
    if ts == [] then 0
    else InWindow(ts[..|ts| - 1], t, window) + if t - window < ts[|ts| - 1] <= t then 1 else 0
  }

  /** Where the failures of one address in that window are in the log. */
  function Within(log: seq<Failure>, ip: string, t: Time, window: nat): set<int> {
    set i | 0 <= i < |log| && log[i].ip == ip && t - window < log[i].at <= t
  }

  lemma {:induction false} InWindowIsWithin(log: seq<Failure>, ip: string, t: Time, window: nat)
    ensures InWindow(TimesOf(log, ip), t, window) == |Within(log, ip, t, window)|
  {
    if log != [] {
      var n := |log| - 1;
      var s, ts := log[..n], TimesOf(log[..n], ip);
      InWindowIsWithin(s, ip, t, window);
      assert (ts + [log[n].at])[..|ts|] == ts && ts + [] == ts;
      WithinLonger(s, log[n], ip, t, window);
      assert s + [log[n]] == log;
    }
  }

  lemma WithinLonger(log: seq<Failure>, f: Failure, ip: string, t: Time, window: nat)
    ensures |Within(log + [f], ip, t, window)|
            == |Within(log, ip, t, window)| + if f.ip == ip && t - window < f.at <= t then 1 else 0
  {
    assert Within(log + [f], ip, t, window)
        == Within(log, ip, t, window) + if f.ip == ip && t - window < f.at <= t then {|log|} else {};
  }

  lemma {:induction false} WindowIsRecent(ts: seq<Time>, t: Time, window: nat, c: Time)
    requires c <= t - window
    ensures InWindow(ts, t, window) <= |Recent(ts, c)|
  {
    if ts != [] {
      WindowIsRecent(ts[..|ts| - 1], t, window, c);
    }
  }

  lemma RecentGrows(ts: seq<Time>, t: Time, c: Time)
    ensures |Recent(ts + [t], c)| <= |Recent(ts, c)| + 1
    ensures t > c ==> |Recent(ts + [t], c)| == |Recent(ts, c)| + 1
    ensures forall u, w: nat :: InWindow(ts + [t], u, w) == InWindow(ts, u, w) + if u - w < t <= u then 1 else 0
  {
    assert (ts + [t])[..|ts|] == ts;
  }

  /** admitted: when the last request was let in. Counted from the window that check looked at, the failures
      recorded and those that may still come stay below limit + k. */
  ghost predicate Bounded(g: Gate, admitted: Time, limit: nat, window: nat, k: nat) {
    && g.pending <= k && admitted <= g.clock
    && |Recent(g.failures, admitted - window)| + g.pending <= limit + k - 1
    && forall t :: InWindow(g.failures, t, window) <= limit + k - 1
  }

  lemma {:induction false} GateInvariant(start: Time, es: seq<Event>, limit: nat, window: nat, k: nat)
    returns (admitted: Time)
    requires limit >= 1 && k >= 1 && After(start, es, limit, window, k).Some?
    ensures Bounded(After(start, es, limit, window, k).value, admitted, limit, window, k)
  {
    if es == [] {
      admitted := start;
    } else {
      var e := es[|es| - 1];
      var g := After(start, es[..|es| - 1], limit, window, k).value;
      var before := GateInvariant(start, es[..|es| - 1], limit, window, k);
      admitted := StepKeepsBounded(g, e, Next(g, e, limit, window, k).value, before, limit, window, k);
    }
  }

  lemma StepKeepsBounded(g: Gate, e: Event, h: Gate, before: Time, limit: nat, window: nat, k: nat)
    returns (admitted: Time)
    requires limit >= 1 && k >= 1 && Bounded(g, before, limit, window, k) && Next(g, e, limit, window, k) == Some(h)
    ensures Bounded(h, admitted, limit, window, k)
  {
    admitted := before;
    if e.Ask? && h.pending > g.pending {
      admitted := e.t;
    } else if e.Fail? {
      RecentGrows(g.failures, e.t, admitted - window);
      forall t
        ensures InWindow(h.failures, t, window) <= limit + k - 1
      {
        if e.t <= t {
          WindowIsRecent(h.failures, t, window, admitted - window);
        } else {
          assert InWindow(h.failures, t, window) == InWindow(g.failures, t, window);
        }
      }
    }
  }

  /** In every run with at most k requests of one address between check and outcome, no window ever holds more
      than limit + k - 1 recorded failures. */
  lemma WindowBound(start: Time, es: seq<Event>, limit: nat, window: nat, k: nat, t: Time)
    requires limit >= 1 && k >= 1 && After(start, es, limit, window, k).Some?
    ensures InWindow(After(start, es, limit, window, k).value.failures, t, window) <= limit + k - 1
  {
    var admitted := GateInvariant(start, es, limit, window, k);
  }

  function Zeros(n: nat): seq<Time> {
    seq(n, _ => 0)
  }

  lemma {:induction false} ZerosCount(n: nat, window: nat)
    requires window >= 1
    ensures |Recent(Zeros(n), 0 - window)| == n && InWindow(Zeros(n), 0, window) == n
  {
    if n > 0 {
      assert Zeros(n)[..n - 1] == Zeros(n - 1);
      ZerosCount(n - 1, window);
    }
  }

  /** The events es lead from the start to n failures at time 0 and this many pending requests. */
  predicate Reaches(es: seq<Event>, n: nat, pending: nat, limit: nat, window: nat, k: nat) {
    After(0, es, limit, window, k) == Some(Gate(Zeros(n), pending, 0))
  }

  lemma AskAfter(es: seq<Event>, n: nat, pending: nat, limit: nat, window: nat, k: nat)
    requires Reaches(es, n, pending, limit, window, k) && n < limit && window >= 1 && pending < k
    ensures Reaches(es + [Ask(0)], n, pending + 1, limit, window, k)
  {
    assert (es + [Ask(0)])[..|es|] == es;
    ZerosCount(n, window);
  }

  lemma FailAfter(es: seq<Event>, n: nat, pending: nat, limit: nat, window: nat, k: nat)
    requires Reaches(es, n, pending, limit, window, k) && pending > 0
    ensures Reaches(es + [Fail(0)], n + 1, pending - 1, limit, window, k)
  {
    assert (es + [Fail(0)])[..|es|] == es;
    assert Zeros(n) + [0] == Zeros(n + 1);
  }

  /** n requests one after the other, each failing at once. */
  lemma {:induction false} TurnsRun(n: nat, limit: nat, window: nat, k: nat) returns (es: seq<Event>)
    requires n <= limit && window >= 1 && k >= 1
    ensures Reaches(es, n, 0, limit, window, k)
  {
    if n == 0 {
      es := [];
      assert Zeros(0) == [];
    } else {
      es := TurnsRun(n - 1, limit, window, k);
      AskAfter(es, n - 1, 0, limit, window, k);
      FailAfter(es + [Ask(0)], n - 1, 1, limit, window, k);
      es := es + [Ask(0)] + [Fail(0)];
    }
  }

  /** Then j requests that are checked before any of them fails ... */
  lemma {:induction false} AsksRun(start: seq<Event>, n: nat, j: nat, limit: nat, window: nat, k: nat)
    returns (es: seq<Event>)
    requires Reaches(start, n, 0, limit, window, k) && n < limit && window >= 1 && j <= k
    ensures Reaches(es, n, j, limit, window, k)
  {
    if j == 0 {
      es := start;
    } else {
      es := AsksRun(start, n, j - 1, limit, window, k);
      AskAfter(es, n, j - 1, limit, window, k);
      es := es + [Ask(0)];
    }
  }

  /** ... and then j failures. */
  lemma {:induction false} FailsRun(start: seq<Event>, n: nat, pending: nat, j: nat, limit: nat, window: nat, k: nat)
    returns (es: seq<Event>)
    requires Reaches(start, n, pending, limit, window, k) && j <= pending
    ensures Reaches(es, n + j, pending - j, limit, window, k)
  {
    if j == 0 {
      es := start;
    } else {
      es := FailsRun(start, n, pending, j - 1, limit, window, k);
      FailAfter(es, n + j - 1, pending - j + 1, limit, window, k);
      es := es + [Fail(0)];
    }
  }

  /** The bound is exact: limit - 1 failures in turn, then k requests checked before any of them fails. */
  lemma BoundIsReached(limit: nat, window: nat, k: nat)
    requires limit >= 1 && window >= 1 && k >= 1
    ensures exists es :: After(0, es, limit, window, k).Some? &&
              InWindow(After(0, es, limit, window, k).value.failures, 0, window) == limit + k - 1
  {
    var n := limit - 1;
    var turns := TurnsRun(n, limit, window, k);
    var asked := AsksRun(turns, n, k, limit, window, k);
    var es := FailsRun(asked, n, k, k, limit, window, k);
    ZerosCount(n + k, window);
    assert After(0, es, limit, window, k).Some?;
  }

  /** Requests of many addresses over one limiter log and one clock. */
  datatype House = House(log: seq<Failure>, pending: map<string, nat>, clock: Time)

  datatype Visit = Visit(ip: string, e: Event)

  function PendingOf(h: House, ip: string): nat {
    if ip in h.pending then h.pending[ip] else 0
  }

  function GateOf(h: House, ip: string): Gate {
    Gate(TimesOf(h.log, ip), PendingOf(h, ip), h.clock)
  }

  /** The guard of Ask is what Allowed answers, and Fail appends to the log as RecordFailure does. */
  function NextHouse(h: House, v: Visit, limit: nat, window: nat, k: nat): Option<House> {
    var g := Next(GateOf(h, v.ip), v.e, limit, window, k);
    if g == None then None
    else
      Some(House(
        if v.e.Fail? then h.log + [Failure(v.ip, v.e.t)] else h.log, h.pending[v.ip := g.value.pending], g.value.clock))
  }

  function AfterVisits(start: Time, vs: seq<Visit>, limit: nat, window: nat, k: nat): Option<House> {
    if vs == [] then Some(House([], map[], start))
    else
      var h := AfterVisits(start, vs[..|vs| - 1], limit, window, k);
      if h == None then None else NextHouse(h.value, vs[|vs| - 1], limit, window, k)
  }

  function EventsOf(vs: seq<Visit>, ip: string): seq<Event> {
    if vs == [] then []
    else EventsOf(vs[..|vs| - 1], ip) + if vs[|vs| - 1].ip == ip then [vs[|vs| - 1].e] else []
  }

  /** Gate g is what the address sees of h. */
  ghost predicate Sees(g: Gate, h: House, ip: string) {
    g.failures == TimesOf(h.log, ip) && g.pending == PendingOf(h, ip) && g.clock <= h.clock
  }

  lemma LogStep(log: seq<Failure>, f: Failure, ip: string)
    ensures TimesOf(log + [f], ip) == if f.ip == ip then TimesOf(log, ip) + [f.at] else TimesOf(log, ip)
  {
    assert (log + [f])[..|log|] == log;
  }

  lemma OwnVisit(h: House, v: Visit, g: Gate, limit: nat, window: nat, k: nat)
    requires Sees(g, h, v.ip) && NextHouse(h, v, limit, window, k).Some?
    ensures Next(g, v.e, limit, window, k).Some?
    ensures Sees(Next(g, v.e, limit, window, k).value, NextHouse(h, v, limit, window, k).value, v.ip)
  {
    if v.e.Fail? {
      LogStep(h.log, Failure(v.ip, v.e.t), v.ip);
    }
  }

  lemma OtherVisit(h: House, v: Visit, g: Gate, ip: string, limit: nat, window: nat, k: nat)
    requires Sees(g, h, ip) && ip != v.ip && NextHouse(h, v, limit, window, k).Some?
    ensures Sees(g, NextHouse(h, v, limit, window, k).value, ip)
  {
    if v.e.Fail? {
      LogStep(h.log, Failure(v.ip, v.e.t), ip);
    }
  }

  /** Seen from one address, the others only let time pass. */
  lemma {:induction false} HouseIsGates(start: Time, vs: seq<Visit>, limit: nat, window: nat, k: nat, ip: string)
    requires AfterVisits(start, vs, limit, window, k).Some?
    ensures After(start, EventsOf(vs, ip), limit, window, k).Some?
    ensures var g := After(start, EventsOf(vs, ip), limit, window, k).value;
            Sees(g, AfterVisits(start, vs, limit, window, k).value, ip)
  {
    if vs != [] {
      var n := |vs| - 1;
      HouseIsGates(start, vs[..n], limit, window, k, ip);
      var h, v := AfterVisits(start, vs[..n], limit, window, k).value, vs[n];
      var es := EventsOf(vs[..n], ip);
      var g := After(start, es, limit, window, k).value;
      if v.ip == ip {
        assert (es + [v.e])[..|es|] == es;
        OwnVisit(h, v, g, limit, window, k);
      } else {
        assert EventsOf(vs, ip) == es;
        OtherVisit(h, v, g, ip, limit, window, k);
      }
    }
  }

  /** The bound holds for every address, whatever the others do. */
  lemma EveryAddressBounded(start: Time, vs: seq<Visit>, limit: nat, window: nat, k: nat, ip: string, t: Time)
    requires limit >= 1 && k >= 1 && AfterVisits(start, vs, limit, window, k).Some?
    ensures InWindow(TimesOf(AfterVisits(start, vs, limit, window, k).value.log, ip), t, window) <= limit + k - 1
    ensures |Within(AfterVisits(start, vs, limit, window, k).value.log, ip, t, window)| <= limit + k - 1
  {
    InWindowIsWithin(AfterVisits(start, vs, limit, window, k).value.log, ip, t, window);
    HouseIsGates(start, vs, limit, window, k, ip);
    WindowBound(start, EventsOf(vs, ip), limit, window, k, t);
  }

  lemma OneVisitMore(start: Time, vs: seq<Visit>, v: Visit, h: House, limit: nat, window: nat, k: nat)
    requires AfterVisits(start, vs, limit, window, k) == Some(h)
    ensures AfterVisits(start, vs + [v], limit, window, k) == NextHouse(h, v, limit, window, k)
  {
    assert (vs + [v])[..|vs|] == vs;
  }

  lemma AskedNext(h: House, ip: string, now: Time, limit: nat, window: nat, k: nat, allowed: bool)
    requires now >= h.clock && PendingOf(h, ip) < k && (allowed <==> |Since(h.log, ip, now - window)| < limit)
    ensures var n := NextHouse(h, Visit(ip, Ask(now)), limit, window, k);
            && n.Some? && n.value.log == h.log && n.value.clock == now
            && PendingOf(n.value, ip) == PendingOf(h, ip) + if allowed then 1 else 0
  {
    RecentIsSince(h.log, ip, now - window);
  }

  /** The requests in flight over one limiter: each first enters, later fails or passes, in any interleaving with
      the others. Readings of the clock do not decrease, and at most k requests of one address are in flight. */
  class Desk {
    const limiter: RateLimiter
    const k: nat
    ghost const start: Time
    ghost var visits: seq<Visit>
    ghost var house: House

    ghost predicate Valid()
      reads this, limiter, limiter.Repr
    {
      && limiter.Valid() && this !in limiter.Repr && k >= 1
      && AfterVisits(start, visits, limiter.limit, limiter.window, k) == Some(house)
      && limiter.log == house.log && limiter.horizon <= house.clock - limiter.window
    }

    constructor (limiter: RateLimiter, k: nat, ghost start: Time)
      requires limiter.Valid() && limiter.log == [] && limiter.horizon <= start - limiter.window && k >= 1
      ensures Valid() && this.limiter == limiter && this.k == k && visits == [] && house == House([], map[], start)
    {
      this.limiter, this.k, this.start := limiter, k, start;
      visits := [];
      house := House([], map[], start);
    }

    /** The calls made so far are a run of the house, extended by this visit. */
    twostate predicate Visited(v: Visit)
      requires old(Valid()) && Valid()
      reads this, limiter, limiter.Repr
    {
      && visits == old(visits) + [v]
      && NextHouse(old(house), v, limiter.limit, limiter.window, k) == Some(house)
    }

    method Enter(ip: string, now: Time) returns (allowed: bool)
      requires Valid() && now >= house.clock && PendingOf(house, ip) < k
      modifies this, limiter.Repr
      ensures Valid() && Visited(Visit(ip, Ask(now)))
      ensures PendingOf(house, ip) == PendingOf(old(house), ip) + if allowed then 1 else 0
      ensures allowed <==> |Since(old(limiter.log), ip, now - limiter.window)| < limiter.limit
    {
      ghost var h := house;
      allowed := limiter.Allowed(ip, now);
      AskedNext(h, ip, now, limiter.limit, limiter.window, k, allowed);
      Extend(Visit(ip, Ask(now)));
    }

    method Fail(ip: string, now: Time, at: Time)
      requires Valid() && house.clock <= now <= at && PendingOf(house, ip) > 0
      modifies this, limiter.Repr
      ensures Valid() && Visited(Visit(ip, Event.Fail(at))) && fresh(limiter.Repr - old(limiter.Repr))
    {
      limiter.RecordFailure(ip, now, at);
      Extend(Visit(ip, Event.Fail(at)));
    }

    method Pass(ip: string)
      requires Valid() && PendingOf(house, ip) > 0
      modifies this
      ensures Valid() && Visited(Visit(ip, Event.Pass))
    {
      Extend(Visit(ip, Event.Pass));
    }

    ghost method Extend(v: Visit)
      requires limiter.Valid() && this !in limiter.Repr && k >= 1
      requires AfterVisits(start, visits, limiter.limit, limiter.window, k) == Some(house)
      requires var h := NextHouse(house, v, limiter.limit, limiter.window, k);
               h.Some? && limiter.log == h.value.log && limiter.horizon <= h.value.clock - limiter.window
      modifies this
      ensures Valid() && visits == old(visits) + [v]
      ensures NextHouse(old(house), v, limiter.limit, limiter.window, k) == Some(house)
    {
      OneVisitMore(start, visits, v, house, limiter.limit, limiter.window, k);
      house, visits := NextHouse(house, v, limiter.limit, limiter.window, k).value, visits + [v];
    }
  }

  /** So the limiter itself never holds more. */
  lemma DeskBounded(d: Desk, ip: string, t: Time)
    requires d.Valid()
    ensures |Within(d.limiter.log, ip, t, d.limiter.window)| <= d.limiter.limit + d.k - 1
  {
    EveryAddressBounded(d.start, d.visits, d.limiter.limit, d.limiter.window, d.k, ip, t);
  }
}
