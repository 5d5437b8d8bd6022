/** The health tracker (internal/health/checker.go): an incremental machine per upstream, against its definition
    over the whole history of samples. */
module Health {
  import opened Model
  import opened Identities

  datatype Status = Unknown | Up | Down

  function Seen(healthy: bool): Status {
    if healthy then Up else Down
  }

  /** h ends in n samples equal to v. */
  ghost predicate EndsIn(h: seq<bool>, n: nat, v: bool) {
    n <= |h| && forall i | |h| - n <= i < |h| :: h[i] == v
  }

  /** The most recent block of t equal samples decides; without one the status is unknown. */
  ghost function StatusOf(h: seq<bool>, t: nat): Status {
    if |h| < t || h == [] then Unknown
    else if EndsIn(h, t, h[|h| - 1]) then Seen(h[|h| - 1])
    else StatusOf(h[..|h| - 1], t)
  }

  /** The first e samples end in a block of v, and no longer prefix ends in a block. */
  ghost predicate LastBlock(h: seq<bool>, t: nat, v: bool, e: int) {
    0 < e <= |h| && EndsIn(h[..e], t, v) && forall f, w | e < f <= |h| :: !EndsIn(h[..f], t, w)
  }

  /** The most recent block is one of v. */
  ghost predicate LatestBlock(h: seq<bool>, t: nat, v: bool) {
    exists e :: LastBlock(h, t, v, e)
  }

  /** Up and Down are what the latest block says, and without a block the status is unknown. */
  lemma {:induction false} StatusIsLatestBlock(h: seq<bool>, t: nat)
    requires t >= 1
    ensures StatusOf(h, t) == Up <==> LatestBlock(h, t, true)
    ensures StatusOf(h, t) == Down <==> LatestBlock(h, t, false)
    ensures StatusOf(h, t) == Unknown <==> forall e, v | 0 < e <= |h| :: !EndsIn(h[..e], t, v)
  {
    if LatestBlock(h, t, true) && LatestBlock(h, t, false) {
      LatestBlockOnce(h, t, true, false);
    }
    if h != [] {
      var n := |h| - 1;
      var s := h[..n];
      assert h[..n + 1] == h;
      assert forall e | 0 < e <= n :: s[..e] == h[..e];
      StatusIsLatestBlock(s, t);
      if EndsIn(h, t, h[n]) {
        assert LastBlock(h, t, h[n], |h|);
      } else {
        assert forall w :: !EndsIn(h, t, w);
        BlockStays(h, t, true);
        BlockStays(h, t, false);
      }
    }
  }

  lemma LatestBlockOnce(h: seq<bool>, t: nat, v: bool, w: bool)
    requires t >= 1 && LatestBlock(h, t, v) && LatestBlock(h, t, w)
    ensures v == w
  {
    var e :| LastBlock(h, t, v, e);
    var d :| LastBlock(h, t, w, d);
    assert e == d;
    assert h[..e][e - 1] == v;
  }

  /** A sample that completes no block leaves the latest one what it was. */
  lemma BlockStays(h: seq<bool>, t: nat, v: bool)
    requires h != [] && forall w :: !EndsIn(h, t, w)
    ensures LatestBlock(h, t, v) <==> LatestBlock(h[..|h| - 1], t, v)
  {
    var s := h[..|h| - 1];
    assert h[..|h|] == h;
    forall e ensures LastBlock(h, t, v, e) <==> LastBlock(s, t, v, e) {
      if 0 < e <= |s| {
        SameLastBlock(h, s, t, v, e);
      }
    }
  }

  lemma SameLastBlock(h: seq<bool>, s: seq<bool>, t: nat, v: bool, e: int)
    requires h != [] && s == h[..|h| - 1] && 0 < e <= |s| && h[..|h|] == h && forall w :: !EndsIn(h, t, w)
    ensures LastBlock(h, t, v, e) <==> LastBlock(s, t, v, e)
  {
    assert forall f | 0 <= f <= |s| :: s[..f] == h[..f];
    if LastBlock(s, t, v, e) {
      forall f, w | e < f <= |h| ensures !EndsIn(h[..f], t, w) {
        assert f <= |s| ==> !EndsIn(s[..f], t, w);
      }
    }
    if LastBlock(h, t, v, e) {
      forall f, w | e < f <= |s| ensures !EndsIn(s[..f], t, w) {
        assert !EndsIn(h[..f], t, w);
      }
    }
  }

  /** The status changes with the i-th sample. */
  ghost predicate FlipAt(h: seq<bool>, t: nat, i: nat) {
    0 < i <= |h| && StatusOf(h[..i], t) != StatusOf(h[..i - 1], t)
  }

  lemma FlipNeedsBlock(h: seq<bool>, t: nat, i: nat)
    requires t >= 1 && FlipAt(h, t, i)
    ensures i >= t && StatusOf(h[..i], t) == if h[i - 1] then Up else Down
    ensures forall k | i - t <= k < i :: h[k] == h[i - 1]
  {
    var s := h[..i];
    assert s[..i - 1] == h[..i - 1];
    assert EndsIn(s, t, s[i - 1]);
    forall k | i - t <= k < i ensures h[k] == h[i - 1] {
      assert s[k] == h[k];
    }
  }

  /** Flap resistance: two changes of status are at least t samples apart. */
  lemma {:induction false} FlipsAreApart(h: seq<bool>, t: nat, i: nat, j: nat)
    requires t >= 1 && i < j && FlipAt(h, t, i) && FlipAt(h, t, j)
    ensures j - i >= t
    decreases j
  {
    FlipNeedsBlock(h, t, i);
    FlipNeedsBlock(h, t, j);
    if h[i - 1] == h[j - 1] {
      // the status was lost in between, by a flip at k
      var k := LastFlip(h, t, i, j - 1);
      assert k != i;
      FlipsAreApart(h, t, i, k);
    }
  }

  /** The status at j was set by the last flip up to j. */
  lemma {:induction false} LastFlip(h: seq<bool>, t: nat, i: nat, j: nat) returns (k: nat)
    requires t >= 1 && FlipAt(h, t, i) && i <= j <= |h|
    ensures i <= k <= j && FlipAt(h, t, k) && StatusOf(h[..k], t) == StatusOf(h[..j], t)
  {
    if FlipAt(h, t, j) {
      k := j;
    } else {
      k := LastFlip(h, t, i, j - 1);
    }
  }

  /** How many samples at the end are equal. */
  function Streak(h: seq<bool>): nat {
    if |h| <= 1 then |h|
    else if h[|h| - 1] == h[|h| - 2] then Streak(h[..|h| - 1]) + 1
    else 1
  }

  lemma {:induction false} StreakIsEnd(h: seq<bool>, n: nat)
    requires h != []
    ensures Streak(h) >= n <==> EndsIn(h, n, h[|h| - 1])
  {
    if |h| > 1 && h[|h| - 1] == h[|h| - 2] && n > 0 {
      StreakIsEnd(h[..|h| - 1], n - 1);
      assert EndsIn(h, n, h[|h| - 1]) <==> EndsIn(h[..|h| - 1], n - 1, h[|h| - 2]);
    } else if |h| > 1 && n > 1 {
      assert h[|h| - 2] != h[|h| - 1];
    }
  }

  /** What the tracker keeps per identity. */
  datatype HState = HState(status: Status, last: bool, haveLast: bool, streak: nat)

  const SEED := HState(Unknown, false, false, 0)

  ghost predicate Explains(h: seq<bool>, t: nat, s: HState) {
    && s.status == StatusOf(h, t)
    && (s.haveLast <==> h != [])
    && (h != [] ==> s.last == h[|h| - 1])
    && s.streak == Streak(h)
  }

  /** One sample more: the streak grows or starts again, the status follows a streak long enough. */
  lemma SampleExplained(h: seq<bool>, t: nat, s: HState, v: bool, n: HState)
    requires t >= 1 && Explains(h, t, s) && n.haveLast && n.last == v
    requires n.streak == if s.haveLast && s.last == v then s.streak + 1 else 1
    requires n.status == if s.status != Seen(v) && n.streak >= t then Seen(v) else s.status
    ensures Explains(h + [v], t, n)
  {
    var g := h + [v];
    assert g[..|h|] == h;
    assert n.streak == Streak(g);
    StreakIsEnd(g, t);
  }

  datatype Event = Targets(ids: seq<Identity>) | Sample(id: Identity, healthy: bool)

  /** The samples that count for each tracked identity: those since it was last added. */
  function Tracked(log: seq<Event>): map<Identity, seq<bool>> {
    if log == [] then map[]
    else
      var n := |log| - 1;
      var before := Tracked(log[..n]);
      match log[n]
      case Targets(ids) => map id | id in ids :: if id in before then before[id] else []
      case Sample(id, healthy) => if id in before then before[id := before[id] + [healthy]] else before
  }

  function SamplesOf(log: seq<Event>, id: Identity): seq<bool> {
    if log == [] then []
    else
      var n := |log| - 1;
      SamplesOf(log[..n], id) + if log[n].Sample? && log[n].id == id then [log[n].healthy] else []
  }

  /** The samples of id in the order of the log, and nothing else. */
  lemma {:induction false} SamplesInOrder(s: seq<Event>, e: Event, t: seq<Event>, id: Identity)
    ensures SamplesOf(s + [e] + t, id)
            == SamplesOf(s, id)
               + (if e == Sample(id, true) then [true] else if e == Sample(id, false) then [false] else [])
               + SamplesOf(t, id)
    decreases |t|
  {
    var log := s + [e] + t;
    if t == [] {
      assert log == s + [e] && log[..|s|] == s;
    } else {
      var n := |t| - 1;
      assert log[..|log| - 1] == s + [e] + t[..n];
      SamplesInOrder(s, e, t[..n], id);
    }
  }

  /** id was added by the event at index a and every later target set kept it. */
  ghost predicate AddedAt(log: seq<Event>, id: Identity, a: nat) {
    && a < |log| && log[a].Targets? && id in log[a].ids
    && (forall b | a < b < |log| && log[b].Targets? :: id in log[b].ids)
    && id !in Tracked(log[..a])
  }

  /** Since it was added, an identity is tracked and its samples are exactly those recorded since. */
  lemma {:induction false} SamplesSinceAdded(log: seq<Event>, id: Identity, a: nat)
    requires AddedAt(log, id, a)
    ensures id in Tracked(log) && Tracked(log)[id] == SamplesOf(log[a..], id)
  {
    var n := |log| - 1;
    var s := log[..n];
    if a == n {
      assert SamplesOf([log[n]], id) == SamplesOf([], id);
      assert log[n..] == [log[n]];
    } else {
      assert s[..a] == log[..a];
      assert AddedAt(s, id, a);
      SamplesSinceAdded(s, id, a);
      assert log[a..][..n - a] == s[a..];
    }
  }

  lemma {:induction false} TrackedWasAdded(log: seq<Event>, id: Identity)
    requires id in Tracked(log)
    ensures exists a: nat :: AddedAt(log, id, a)
  {
    var n := |log| - 1;
    var s := log[..n];
    if id in Tracked(s) {
      TrackedWasAdded(s, id);
      var a: nat :| AddedAt(s, id, a);
      assert s[..a] == log[..a];
      assert AddedAt(log, id, a);
    } else {
      assert AddedAt(log, id, n);
    }
  }

  /** An identity is tracked exactly when it was added and every later target set kept it, which is when the
      last target set names it; samples of untracked identities leave no trace. */
  lemma TrackedSince(log: seq<Event>, id: Identity)
    ensures id in Tracked(log) <==> exists a: nat :: AddedAt(log, id, a)
    ensures forall a: nat | AddedAt(log, id, a) :: Tracked(log)[id] == SamplesOf(log[a..], id)
  {
    forall a: nat | AddedAt(log, id, a)
      ensures id in Tracked(log) && Tracked(log)[id] == SamplesOf(log[a..], id)
    {
      SamplesSinceAdded(log, id, a);
    }
    if id in Tracked(log) {
      TrackedWasAdded(log, id);
    }
  }

  /** s is what the samples since the identity was added make of it: Up or Down as their latest block says, and Unknown
      if they have none or the identity is not tracked. */
  ghost predicate Reports(log: seq<Event>, id: Identity, t: nat, s: Status) {
    && (s == Up <==> exists a: nat :: AddedAt(log, id, a) && LatestBlock(SamplesOf(log[a..], id), t, true))
    && (s == Down <==> exists a: nat :: AddedAt(log, id, a) && LatestBlock(SamplesOf(log[a..], id), t, false))
  }

  lemma TrackedReports(log: seq<Event>, id: Identity, t: nat)
    requires t >= 1
    ensures Reports(log, id, t, if id in Tracked(log) then StatusOf(Tracked(log)[id], t) else Unknown)
  {
    TrackedSince(log, id);
    if id in Tracked(log) {
      StatusIsLatestBlock(Tracked(log)[id], t);
      var a: nat :| AddedAt(log, id, a);
      assert Tracked(log)[id] == SamplesOf(log[a..], id);
    }
  }

  /** The last target set of the log. */
  function LastTargets(log: seq<Event>): seq<Identity> {
    if log == [] then []
    else if log[|log| - 1].Targets? then log[|log| - 1].ids
    else LastTargets(log[..|log| - 1])
  }

  lemma {:induction false} TrackedAreTargets(log: seq<Event>)
    ensures Tracked(log).Keys == SetOf(LastTargets(log))
  {
    if log != [] && log[|log| - 1].Sample? {
      TrackedAreTargets(log[..|log| - 1]);
    }
  }

  /** One probe round: a sample per target, in order. */
  function Probes(ids: seq<Identity>, probe: Identity -> bool): seq<Event> {
    if ids == [] then []
    else Probes(ids[..|ids| - 1], probe) + [Sample(ids[|ids| - 1], probe(ids[|ids| - 1]))]
  }

  lemma {:induction false} ProbesAre(ids: seq<Identity>, probe: Identity -> bool)
    ensures |Probes(ids, probe)| == |ids|
    ensures forall k | 0 <= k < |ids| :: Probes(ids, probe)[k] == Sample(ids[k], probe(ids[k]))
  {
    if ids != [] {
      ProbesAre(ids[..|ids| - 1], probe);
    }
  }

  class Tracker {
    const threshold: int
    var states: map<Identity, HState>
    var targets: seq<Identity>
    /** Everything that happened, in order. */
    ghost var log: seq<Event>

    ghost predicate Valid()
      reads this
    {
      && threshold >= 1
      && states.Keys == Tracked(log).Keys
      && forall id | id in states :: Explains(Tracked(log)[id], threshold, states[id])
    }

    constructor (threshold: int)
      ensures Valid() && log == [] && this.threshold == if threshold < 1 then 1 else threshold
    {
      this.threshold := if threshold < 1 then 1 else threshold;
      states := map[];
      targets := [];
      log := [];
    }

    method SetTargets(ids: seq<Identity>)
      requires Valid()
      modifies this
      ensures Valid() && log == old(log) + [Targets(ids)] && targets == ids
    {
      var want: set<Identity> := {};
      for i := 0 to |ids|
        invariant forall x :: x in want <==> x in ids[..i]
        invariant states.Keys == old(states).Keys + want
        invariant forall x | x in states :: states[x] == if x in old(states) then old(states)[x] else SEED
        invariant log == old(log)
      {
        want := want + {ids[i]};
        if ids[i] !in states {
          states := states[ids[i] := SEED];
        }
        assert ids[..i + 1] == ids[..i] + [ids[i]];
      }
      assert ids[..|ids|] == ids;
      states := map id | id in states && id in want :: states[id];
      targets := ids;
      log := log + [Targets(ids)];
      assert log[..|log| - 1] == old(log);
    }

    /** One raw sample under hysteresis; a sample for an untracked identity is ignored. */
    method Record(id: Identity, healthy: bool)
      requires Valid()
      modifies this
      ensures Valid() && log == old(log) + [Sample(id, healthy)] && targets == old(targets)
      ensures forall x | x != id && x in old(states) :: x in states && states[x] == old(states)[x]
    {
      log := log + [Sample(id, healthy)];
      assert log[..|log| - 1] == old(log);
      if id !in states {
        return;
      }
      var s := states[id];
      var streak := if s.haveLast && s.last == healthy then s.streak + 1 else 1;
      var desired := if healthy then Up else Down;
      var status := s.status;
      if s.status != desired && streak >= threshold {
        status := desired;
      }
      states := states[id := HState(status, healthy, true, streak)];
      SampleExplained(Tracked(old(log))[id], threshold, s, healthy, states[id]);
    }

    /** checkOnce: one probe result per current target, in order, until the context is cancelled; patience says
        after how many targets that happens. */
    method CheckOnce(probe: Identity -> bool, patience: nat)
      requires Valid()
      modifies this
      ensures Valid() && targets == old(targets)
      ensures log == old(log) + Probes(if patience < |targets| then targets[..patience] else targets, probe)
    {
      var ids := targets;
      for i := 0 to |ids|
        invariant Valid() && targets == ids && i <= patience
        invariant log == old(log) + Probes(ids[..i], probe)
      {
        if i == patience {
          return;
        }
        Record(ids[i], probe(ids[i]));
        assert ids[..i + 1][..i] == ids[..i];
      }
      assert ids[..|ids|] == ids;
    }

    /** The live-failure feed. */
    method RecordFailure(up: Upstream)
      requires Valid()
      modifies this
      ensures Valid() && log == old(log) + [Sample(IdentityOf(up), false)]
    {
      Record(IdentityOf(up), false);
    }

    /** The reported status is the one the history defines. */
    method StatusFor(up: Upstream) returns (s: Status)
      requires Valid()
      ensures Reports(log, IdentityOf(up), threshold, s)
    {
      var id := IdentityOf(up);
      TrackedReports(log, id, threshold);
      s := if id in states then states[id].status else Unknown;
    }

    /** All tracked identities with their status, in the one sorted order, whatever order the map yields. */
    method List() returns (ids: seq<Identity>, status: seq<Status>)
      requires Valid()
      ensures Lists(ids, Tracked(log).Keys) && |status| == |ids|
      ensures forall i | 0 <= i < |ids| :: Reports(log, ids[i], threshold, status[i])
    {
      var found: seq<Identity> := [];
      var todo := states.Keys;
      while todo != {}
        invariant todo <= states.Keys && NoRepeats(found, states.Keys - todo)
        decreases |todo|
      {
        SomeIdentity(todo);
        var id :| id in todo;
        found := found + [id];
        todo := todo - {id};
      }
      ids := Sort(found);
      assert SetOf(found) == states.Keys;
      status := seq(|ids|, i requires 0 <= i < |ids| && ids[i] in states reads this => states[ids[i]].status);
      forall i | 0 <= i < |ids| ensures Reports(log, ids[i], threshold, status[i]) {
        TrackedReports(log, ids[i], threshold);
      }
    }
  }

  /** At any time, after any calls, each status is what the samples say. */
  lemma StatesReport(tracker: Tracker, id: Identity)
    requires tracker.Valid() && id in tracker.states
    ensures Reports(tracker.log, id, tracker.threshold, tracker.states[id].status)
  {
    TrackedReports(tracker.log, id, tracker.threshold);
  }

  lemma SomeIdentity(s: set<Identity>)
    ensures s == {} || exists x :: x in s
  {
    if forall x :: x !in s {
      assert s == {};
    }
  }
}
