/**
 The two limits on provisioning calls (internal/provision/provision.go, reserve): one call
 for an identity every ten minutes, and sixty calls an hour in all.

 A call reads the clock first and takes the lock afterwards, so the order in which calls
 enter the locked section need not be the order of their readings.  The limits are proved for
 any delay between the two, weakened by exactly that delay; with any delay at all the limits
 themselves can fail.  Times are nanoseconds.
 */
module Provision {
  import opened Common

  const MINUTE := 60000000000
  const HOUR := 60 * MINUTE
  const REFIRE_AFTER := 10 * MINUTE
  const MAX_CALLS_PER_HOUR := 60
  const MAX_FIRED := 4096

  datatype Refusal = AlreadyAttempted | TooManyCalls

  /** When each identity last caused a call, and the calls of the last hour, oldest first. */
  datatype State = State(fired: map<string, int>, calls: seq<int>)

  /** The times after c. */
  function Since(ts: seq<int>, c: int): (r: seq<int>)
    ensures |r| <= |ts|
  {
    if ts == [] then [] else (if ts[0] > c then [ts[0]] else []) + Since(ts[1..], c)
  }

  function Recent(fired: map<string, int>, now: int): map<string, int> {
    map k | k in fired && now - fired[k] < REFIRE_AFTER :: fired[k]
  }

  function Bounded(fired: map<string, int>, now: int): map<string, int> {
    if |fired| > MAX_FIRED then Recent(fired, now) else fired
  }

  function Reserved(s: State, key: string, now: int): (State, Option<Refusal>) {
    if key in s.fired && now - s.fired[key] < REFIRE_AFTER then (s, Some(AlreadyAttempted))
    else
      var kept := Since(s.calls, now - HOUR);
      if |kept| >= MAX_CALLS_PER_HOUR then (s.(calls := kept), Some(TooManyCalls))
      else (State(Bounded(s.fired[key := now], now), kept + [now]), None)
  }

  lemma FilterStarts(ts: seq<int>, c: int)
    ensures Since(ts, c) == [] + Since(ts[0..], c)
  {
    assert ts[0..] == ts;
  }

  lemma {:induction false} SinceAt(ts: seq<int>, i: nat, c: int)
    requires i < |ts|
    ensures Since(ts[i..], c) == (if ts[i] > c then [ts[i]] else []) + Since(ts[i + 1..], c)
  {
    assert ts[i..][1..] == ts[i + 1..];
  }

  lemma {:induction false} FilterStep(ts: seq<int>, i: nat, c: int, done: seq<int>)
    requires i < |ts| && Since(ts, c) == done + Since(ts[i..], c)
    ensures Since(ts, c) == (if ts[i] > c then done + [ts[i]] else done) + Since(ts[i + 1..], c)
  {
    hide Since;
    SinceAt(ts, i, c);
    var head := if ts[i] > c then [ts[i]] else [];
    assert done + (head + Since(ts[i + 1..], c)) == (done + head) + Since(ts[i + 1..], c);
  }

  lemma FilterEnds(ts: seq<int>, c: int, done: seq<int>)
    requires Since(ts, c) == done + Since(ts[|ts|..], c)
    ensures Since(ts, c) == done
  {
  }

  // ------------------------------------------------------------------- in place

  class Provisioner {
    var fired: map<string, int>
    /** The slice of call times and its backing array, given its final capacity at once. */
    const buf: array<int>
    var n: nat

    ghost predicate Valid()
      reads this
    {
      buf.Length == MAX_CALLS_PER_HOUR && n <= buf.Length
    }

    ghost function Now(): State
      requires Valid()
      reads this, buf
    {
      State(fired, buf[..n])
    }

    constructor ()
      ensures Valid() && fresh(buf) && Now() == State(map[], [])
    {
      fired, n, buf := map[], 0, new int[MAX_CALLS_PER_HOUR];
    }

    /** Filters the slice over its own array: the write position never passes the read position. */
    method Forget(cutoff: int)
      requires Valid()
      modifies this`n, buf
      ensures Valid() && buf[..n] == Since(old(buf[..n]), cutoff)
    {
      hide Since;
      ghost var before := buf[..n];
      var kept := 0;
      FilterStarts(before, cutoff);
      var i := 0;
      while i < n
        invariant 0 <= kept <= i <= n <= buf.Length && n == |before|
        invariant Since(before, cutoff) == buf[..kept] + Since(before[i..], cutoff)
        invariant forall j | i <= j < n :: buf[j] == before[j]
      {
        var t := buf[i];
        FilterStep(before, i, cutoff, buf[..kept]);
        if t > cutoff {
          ghost var prefix := buf[..kept];
          buf[kept] := t;
          kept := kept + 1;
          assert buf[..kept] == prefix + [t];
        }
        i := i + 1;
      }
      FilterEnds(before, cutoff, buf[..kept]);
      n := kept;
    }

    method Prune(now: int)
      modifies this`fired
      ensures fired == Recent(old(fired), now)
    {
      var todo := fired.Keys;
      ghost var before := fired;
      while todo != {}
        invariant todo <= before.Keys
        invariant fired == map k | k in before && (k in todo || now - before[k] < REFIRE_AFTER) :: before[k]
        decreases todo
      {
        var k :| k in todo;
        if now - fired[k] >= REFIRE_AFTER {
          fired := fired - {k};
        }
        todo := todo - {k};
      }
    }

    method Reserve(key: string, now: int) returns (refused: Option<Refusal>)
      requires Valid()
      modifies this, buf
      ensures Valid() && (Now(), refused) == Reserved(old(Now()), key, now)
    {
      if key in fired && now - fired[key] < REFIRE_AFTER { return Some(AlreadyAttempted); }
      Forget(now - HOUR);
      if n >= MAX_CALLS_PER_HOUR { return Some(TooManyCalls); }
      ghost var kept := buf[..n];
      fired := fired[key := now];
      buf[n] := now;
      n := n + 1;
      assert buf[..n] == kept + [now];
      if |fired| > MAX_FIRED {
        Prune(now);
      }
      return None;
    }
  }

  // ------------------------------------------------------------------- the limits

  /** A call: its reading of the clock, and when it then got the lock. */
  datatype Call = Call(key: string, read: int, entered: int)

  datatype Grant = Grant(key: string, at: int)

  /** The state after the locked sections of some calls, and the calls granted, in lock order. */
  function Run(calls: seq<Call>): (State, seq<Grant>) {
    if calls == [] then (State(map[], []), [])
    else
      var (s, grants) := Run(calls[..|calls| - 1]);
      var c := calls[|calls| - 1];
      var (t, refused) := Reserved(s, c.key, c.read);
      (t, if refused.None? then grants + [Grant(c.key, c.read)] else grants)
  }

  /** In lock order, on a clock that does not go backwards, nobody waiting longer than `wait` for the lock. */
  ghost predicate Possible(calls: seq<Call>, wait: nat) {
    (forall i | 0 <= i < |calls| :: calls[i].read <= calls[i].entered <= calls[i].read + wait)
    && (forall i, j | 0 <= i < j < |calls| :: calls[i].entered <= calls[j].entered)
  }

  /** No reading is more than `skew` older than one processed before it. */
  ghost predicate Skewed(calls: seq<Call>, skew: nat) {
    forall i, j | 0 <= i < j < |calls| :: calls[i].read <= calls[j].read + skew
  }

  /** Waiting for the lock is what puts readings out of order, by no more than the wait. */
  lemma WaitBoundsTheSkew(calls: seq<Call>, wait: nat)
    requires Possible(calls, wait)
    ensures Skewed(calls, wait)
  {
    forall i, j | 0 <= i < j < |calls| ensures calls[i].read <= calls[j].read + wait {
      assert calls[i].read <= calls[i].entered <= calls[j].entered <= calls[j].read + wait;
    }
  }

  function Times(grants: seq<Grant>): (ts: seq<int>)
    ensures |ts| == |grants| && forall i | 0 <= i < |ts| :: ts[i] == grants[i].at
  {
    seq(|grants|, i requires 0 <= i < |grants| => grants[i].at)
  }

  /** How many times lie after a and not after b. */
  function CountIn(ts: seq<int>, a: int, b: int): nat {
    if ts == [] then 0 else (if a < ts[0] <= b then 1 else 0) + CountIn(ts[1..], a, b)
  }

  /** The grants of the given stretch of time that ends at t: after t - span, not after t. */
  ghost function Ending(grants: seq<Grant>, span: int, t: int): nat { CountIn(Times(grants), t - span, t) }

  /** No stretch of an hour less the skew holds more than sixty grants, wherever it starts. */
  ghost predicate HourlyLimit(grants: seq<Grant>, skew: nat) { AtMostSixty(grants, HOUR - skew) }

  ghost predicate AtMostSixty(grants: seq<Grant>, span: int) {
    forall t :: Ending(grants, span, t) <= MAX_CALLS_PER_HOUR
  }

  /** Of two grants to one identity the later in lock order is ten minutes later, less the skew. */
  ghost predicate Apart(grants: seq<Grant>, skew: nat) {
    forall i, j | 0 <= i < j < |grants| && grants[i].key == grants[j].key ::
      grants[j].at - grants[i].at >= REFIRE_AFTER - skew
  }

  /** The slice still holds every grant less than an hour older than the newest reading. */
  ghost predicate Remembers(s: State, grants: seq<Grant>, newest: int) {
    |s.calls| <= MAX_CALLS_PER_HOUR && forall c | c >= newest - HOUR :: Since(s.calls, c) == Since(Times(grants), c)
  }

  /** The map holds the last grant of every identity, save those old enough to be forgotten. */
  ghost predicate Keeps(s: State, grants: seq<Grant>, newest: int) {
    (forall k | k in s.fired :: Grant(k, s.fired[k]) in grants)
    && forall i | 0 <= i < |grants| ::
      newest - grants[i].at >= REFIRE_AFTER || (grants[i].key in s.fired && grants[i].at <= s.fired[grants[i].key])
  }

  ghost predicate Small(s: State, skew: nat) { skew <= HOUR - REFIRE_AFTER ==> |s.fired| <= MAX_FIRED }

  ghost predicate Inv(s: State, grants: seq<Grant>, newest: int, skew: nat) {
    Remembers(s, grants, newest) && Keeps(s, grants, newest)
    && HourlyLimit(grants, skew) && Apart(grants, skew) && Small(s, skew)
  }

  function Max(a: int, b: int): int { if a < b then b else a }

  // ------------------------------------------------------------------ the proofs

  lemma {:induction false} SinceJoined(a: seq<int>, b: seq<int>, c: int)
    ensures Since(a + b, c) == Since(a, c) + Since(b, c)
  {
    if a == [] {
      assert a + b == b;
    } else {
      assert (a + b)[1..] == a[1..] + b;
      SinceJoined(a[1..], b, c);
    }
  }

  /** Filtering by an earlier time first changes nothing. */
  lemma {:induction false} SinceTwice(ts: seq<int>, c: int, d: int)
    requires c <= d
    ensures Since(Since(ts, c), d) == Since(ts, d)
  {
    if ts != [] {
      SinceTwice(ts[1..], c, d);
      if ts[0] > c {
        assert ([ts[0]] + Since(ts[1..], c))[1..] == Since(ts[1..], c);
      } else {
        assert [] + Since(ts[1..], c) == Since(ts[1..], c);
      }
    }
  }

  lemma {:induction false} CountJoined(a: seq<int>, b: seq<int>, from: int, to: int)
    ensures CountIn(a + b, from, to) == CountIn(a, from, to) + CountIn(b, from, to)
  {
    if a == [] {
      assert a + b == b;
    } else {
      assert (a + b)[1..] == a[1..] + b;
      CountJoined(a[1..], b, from, to);
    }
  }

  lemma {:induction false} CountIsWithinSince(ts: seq<int>, from: int, to: int, c: int)
    requires c <= from
    ensures CountIn(ts, from, to) <= |Since(ts, c)|
  {
    if ts != [] {
      CountIsWithinSince(ts[1..], from, to, c);
    }
  }

  lemma TimesGrow(grants: seq<Grant>, g: Grant)
    ensures Times(grants + [g]) == Times(grants) + [g.at]
  {
  }

  lemma OneCount(x: int, from: int, to: int)
    ensures CountIn([x], from, to) == if from < x <= to then 1 else 0
  {
  }

  lemma {:induction false} SinceShrinks(ts: seq<int>, c: int, d: int)
    requires c <= d
    ensures |Since(ts, d)| <= |Since(ts, c)|
  {
    if ts != [] {
      SinceShrinks(ts[1..], c, d);
    }
  }

  /**
   A call granted with fewer than sixty in the hour before its reading leaves every stretch of an hour,
   less the skew, within the limit.
   */
  lemma GrantKeepsHourlyLimit(s: State, grants: seq<Grant>, newest: int, skew: nat, g: Grant)
    requires Remembers(s, grants, newest) && HourlyLimit(grants, skew) && newest <= g.at + skew
    requires |Since(s.calls, g.at - HOUR)| < MAX_CALLS_PER_HOUR
    ensures HourlyLimit(grants + [g], skew)
  {
    var ts, span := Times(grants), HOUR - skew;
    TimesGrow(grants, g);
    forall t ensures Ending(grants + [g], span, t) <= MAX_CALLS_PER_HOUR {
      CountJoined(ts, [g.at], t - span, t);
      OneCount(g.at, t - span, t);
      assert Ending(grants, span, t) <= MAX_CALLS_PER_HOUR;
      if t - span < g.at <= t {
        CountIsWithinSince(ts, t - span, t, t - span);
        SinceShrinks(s.calls, g.at - HOUR, t - span);
      }
    }
  }

  lemma SliceStillRemembers(s: State, grants: seq<Grant>, newest: int, now: int)
    requires Remembers(s, grants, newest)
    ensures Remembers(s.(calls := Since(s.calls, now - HOUR)), grants, Max(newest, now))
  {
    var kept := Since(s.calls, now - HOUR);
    forall c | c >= Max(newest, now) - HOUR ensures Since(kept, c) == Since(Times(grants), c) {
      SinceTwice(s.calls, now - HOUR, c);
    }
  }

  lemma SliceRemembersTheGrant(s: State, grants: seq<Grant>, newest: int, g: Grant)
    requires Remembers(s, grants, newest) && |s.calls| < MAX_CALLS_PER_HOUR
    ensures Remembers(s.(calls := s.calls + [g.at]), grants + [g], newest)
  {
    TimesGrow(grants, g);
    forall c | c >= newest - HOUR ensures Since(s.calls + [g.at], c) == Since(Times(grants + [g]), c) {
      SinceJoined(s.calls, [g.at], c);
      SinceJoined(Times(grants), [g.at], c);
    }
  }

  lemma GrantStaysApart(s: State, grants: seq<Grant>, newest: int, skew: nat, g: Grant)
    requires Keeps(s, grants, newest) && Apart(grants, skew) && newest <= g.at + skew
    requires g.key in s.fired ==> g.at - s.fired[g.key] >= REFIRE_AFTER
    ensures Apart(grants + [g], skew)
  {
    forall i | 0 <= i < |grants| && grants[i].key == g.key ensures g.at - grants[i].at >= REFIRE_AFTER - skew {
    }
  }

  lemma AddedIsKept(s: State, grants: seq<Grant>, newest: int, g: Grant)
    requires Keeps(s, grants, newest) && (g.key in s.fired ==> s.fired[g.key] <= g.at)
    ensures Keeps(s.(fired := s.fired[g.key := g.at]), grants + [g], Max(newest, g.at))
  {
    var all := grants + [g];
    forall k | k in s.fired && k != g.key ensures Grant(k, s.fired[k]) in all {
      var i :| 0 <= i < |grants| && grants[i] == Grant(k, s.fired[k]);
      assert all[i] == grants[i];
    }
    assert all[|grants|] == g;
  }

  /** Pruning forgets only identities that may call again anyway. */
  lemma PruningKeeps(s: State, grants: seq<Grant>, newest: int, now: int)
    requires Keeps(s, grants, newest) && now <= newest
    ensures Keeps(s.(fired := Bounded(s.fired, now)), grants, newest)
  {
  }

  lemma KeepsLater(s: State, grants: seq<Grant>, newest: int, later: int)
    requires Keeps(s, grants, newest) && newest <= later
    ensures Keeps(s, grants, later)
  {
  }

  ghost function KeysSince(grants: seq<Grant>, c: int): set<string> {
    set i | 0 <= i < |grants| && grants[i].at > c :: grants[i].key
  }

  lemma KeysGrow(grants: seq<Grant>, g: Grant, c: int)
    ensures KeysSince(grants + [g], c) == KeysSince(grants, c) + (if g.at > c then {g.key} else {})
  {
    var all := grants + [g];
    forall k ensures k in KeysSince(all, c) <==> k in KeysSince(grants, c) || (g.at > c && k == g.key) {
      if k in KeysSince(grants, c) {
        var i :| 0 <= i < |grants| && grants[i].at > c && grants[i].key == k;
        assert all[i].key == k && all[i].at > c;
      }
      if g.at > c {
        assert all[|grants|].key == g.key && all[|grants|].at > c;
      }
    }
  }

  lemma {:induction false} FewKeys(grants: seq<Grant>, c: int)
    ensures |KeysSince(grants, c)| <= |Since(Times(grants), c)|
  {
    if grants != [] {
      var n := |grants| - 1;
      var last := grants[n];
      hide KeysSince;
      FewKeys(grants[..n], c);
      assert grants == grants[..n] + [last];
      TimesGrow(grants[..n], last);
      SinceJoined(Times(grants[..n]), [last.at], c);
      KeysGrow(grants[..n], last, c);
    }
  }

  lemma {:induction false} SubsetIsSmaller(a: set<string>, b: set<string>)
    requires a <= b
    ensures |a| <= |b|
    decreases |a|
  {
    if a != {} {
      var x :| x in a;
      SubsetIsSmaller(a - {x}, b - {x});
    }
  }

  /** What pruning leaves was granted within the hour, so it is no more than the hourly limit. */
  lemma PrunedMapIsSmall(s: State, grants: seq<Grant>, newest: int, now: int)
    requires Keeps(s, grants, newest) && Remembers(s, grants, newest) && newest - HOUR <= now - REFIRE_AFTER
    ensures |Recent(s.fired, now)| <= MAX_CALLS_PER_HOUR
  {
    var left := Recent(s.fired, now);
    forall k | k in left ensures k in KeysSince(grants, now - REFIRE_AFTER) {
      var i :| 0 <= i < |grants| && grants[i] == Grant(k, s.fired[k]);
      assert grants[i].at > now - REFIRE_AFTER;
    }
    SubsetIsSmaller(left.Keys, KeysSince(grants, now - REFIRE_AFTER));
    FewKeys(grants, now - REFIRE_AFTER);
    assert Since(Times(grants), now - REFIRE_AFTER) == Since(s.calls, now - REFIRE_AFTER);
    assert |left| == |left.Keys|;
  }

  lemma SameMap(s: State, calls: seq<int>, grants: seq<Grant>, newest: int)
    requires Keeps(s, grants, newest)
    ensures Keeps(s.(calls := calls), grants, newest)
  {
  }

  lemma SameSlice(s: State, fired: map<string, int>, grants: seq<Grant>, newest: int)
    requires Remembers(s, grants, newest)
    ensures Remembers(s.(fired := fired), grants, newest)
  {
  }

  lemma GrantKeepsInv(s: State, kept: State, grants: seq<Grant>, newest: int, skew: nat, g: Grant)
    requires Inv(s, grants, newest, skew) && newest <= g.at + skew
    requires kept == s.(calls := Since(s.calls, g.at - HOUR)) && |kept.calls| < MAX_CALLS_PER_HOUR
    requires g.key in s.fired ==> g.at - s.fired[g.key] >= REFIRE_AFTER
    ensures Inv(State(Bounded(s.fired[g.key := g.at], g.at), kept.calls + [g.at]), grants + [g], Max(newest, g.at), skew)
  {
    hide Since, HourlyLimit, Apart, Recent, Keeps, Remembers;
    var later, all := Max(newest, g.at), grants + [g];
    GrantKeepsHourlyLimit(s, grants, newest, skew, g);
    GrantStaysApart(s, grants, newest, skew, g);
    AddedIsKept(s, grants, newest, g);
    SliceStillRemembers(s, grants, newest, g.at);
    SliceRemembersTheGrant(kept, grants, later, g);
    SameMap(s.(fired := s.fired[g.key := g.at]), kept.calls + [g.at], all, later);
    SameSlice(kept.(calls := kept.calls + [g.at]), s.fired[g.key := g.at], all, later);
    var added := State(s.fired[g.key := g.at], kept.calls + [g.at]);
    PruningKeeps(added, all, later, g.at);
    SameSlice(added, Bounded(added.fired, g.at), all, later);
    if skew <= HOUR - REFIRE_AFTER {
      PrunedMapIsSmall(added, all, later, g.at);
    }
  }

  /** Whatever is asked, the limits hold after it if they held before. */
  lemma {:induction false} CallKeepsInv(s: State, grants: seq<Grant>, newest: int, skew: nat, key: string, now: int)
    requires Inv(s, grants, newest, skew) && newest <= now + skew
    ensures var (t, refused) := Reserved(s, key, now);
            Inv(t, if refused.None? then grants + [Grant(key, now)] else grants, Max(newest, now), skew)
  {
    hide Since, HourlyLimit, Apart, Recent, Bounded, Keeps, Remembers;
    var (t, refused) := Reserved(s, key, now);
    var kept := s.(calls := Since(s.calls, now - HOUR));
    KeepsLater(s, grants, newest, Max(newest, now));
    SliceStillRemembers(s, grants, newest, now);
    if refused.None? {
      GrantKeepsInv(s, kept, grants, newest, skew, Grant(key, now));
    } else if refused == Some(TooManyCalls) {
      SameMap(s, kept.calls, grants, Max(newest, now));
    } else {
      RemembersLater(s, grants, newest, Max(newest, now));
    }
  }

  lemma RemembersLater(s: State, grants: seq<Grant>, newest: int, later: int)
    requires Remembers(s, grants, newest) && newest <= later
    ensures Remembers(s, grants, later)
  {
  }

  lemma NothingGranted(newest: int, skew: nat)
    ensures Inv(State(map[], []), [], newest, skew)
  {
  }

  lemma InvSays(s: State, grants: seq<Grant>, newest: int, skew: nat)
    requires Inv(s, grants, newest, skew)
    ensures HourlyLimit(grants, skew) && Apart(grants, skew) && Small(s, skew)
  {
  }

  lemma {:induction false} SkewedRunKeepsInv(calls: seq<Call>, skew: nat) returns (newest: int)
    requires Skewed(calls, skew)
    ensures var (s, grants) := Run(calls); Inv(s, grants, newest, skew)
    ensures calls != [] ==> exists i | 0 <= i < |calls| :: newest == calls[i].read
    decreases |calls|
  {
    hide Inv;
    if calls == [] {
      newest := 0;
      NothingGranted(newest, skew);
    } else {
      var n := |calls| - 1;
      var c := calls[n];
      var (s, grants) := Run(calls[..n]);
      newest := SkewedRunKeepsInv(calls[..n], skew);
      if n == 0 {
        newest := c.read;
        NothingGranted(newest, skew);
      }
      CallKeepsInv(s, grants, newest, skew, c.key, c.read);
      newest := Max(newest, c.read);
      assert calls[n].read == c.read;
    }
  }

  /**
   Over every run in which nobody waits longer than `wait` for the lock: no stretch of an hour less that
   wait holds more than sixty grants, two grants to one identity are ten minutes apart less that wait,
   and for waits up to fifty minutes the map never outgrows its bound.
   */
  lemma {:induction false} LimitsHold(calls: seq<Call>, wait: nat)
    requires Possible(calls, wait)
    ensures var (s, grants) := Run(calls);
            HourlyLimit(grants, wait) && Apart(grants, wait) && Small(s, wait)
  {
    WaitBoundsTheSkew(calls, wait);
    var newest := SkewedRunKeepsInv(calls, wait);
    InvSays(Run(calls).0, Run(calls).1, newest, wait);
  }

  // -------------------------------------------------- exactly who is let through

  lemma {:induction false} SinceIsCount(ts: seq<int>, c: int, to: int)
    requires forall i | 0 <= i < |ts| :: ts[i] <= to
    ensures |Since(ts, c)| == CountIn(ts, c, to)
  {
    if ts != [] {
      SinceIsCount(ts[1..], c, to);
    }
  }

  /** The identity was granted a call less than ten minutes ago. */
  ghost predicate JustGranted(grants: seq<Grant>, key: string, now: int) {
    exists i | 0 <= i < |grants| :: grants[i].key == key && now - grants[i].at < REFIRE_AFTER
  }

  lemma MemoryIsEnough(s: State, grants: seq<Grant>, newest: int, key: string, now: int)
    requires Keeps(s, grants, newest) && newest <= now
    ensures key in s.fired && now - s.fired[key] < REFIRE_AFTER <==> JustGranted(grants, key, now)
  {
    if key in s.fired && now - s.fired[key] < REFIRE_AFTER {
      var i :| 0 <= i < |grants| && grants[i] == Grant(key, s.fired[key]);
      assert grants[i].key == key;
    }
  }

  lemma {:induction false} GrantsWereRead(calls: seq<Call>, now: int)
    requires forall i | 0 <= i < |calls| :: calls[i].read <= now
    ensures forall i | 0 <= i < |Run(calls).1| :: Run(calls).1[i].at <= now
    decreases |calls|
  {
    hide Reserved;
    if calls != [] {
      GrantsWereRead(calls[..|calls| - 1], now);
    }
  }

  /**
   Exactly who is let through when calls are processed in the order of their readings: a call is refused as attempted if its
   identity was granted one less than ten minutes ago, refused as one too many if not and sixty were granted in the past
   hour, and granted otherwise, however much of its memory the map has pruned.
   */
  lemma {:induction false} GrantedIffAllowed(calls: seq<Call>, key: string, now: int)
    requires Skewed(calls, 0) && forall i | 0 <= i < |calls| :: calls[i].read <= now
    ensures var (s, grants) := Run(calls);
            var refused := Reserved(s, key, now).1;
            && (refused == Some(AlreadyAttempted) <==> JustGranted(grants, key, now))
            && (refused == Some(TooManyCalls) <==> !JustGranted(grants, key, now) && Ending(grants, HOUR, now) >= MAX_CALLS_PER_HOUR)
            && (refused == None <==> !JustGranted(grants, key, now) && Ending(grants, HOUR, now) < MAX_CALLS_PER_HOUR)
  {
    hide Since, HourlyLimit, Apart, Run, JustGranted, Bounded;
    var (s, grants) := Run(calls);
    var newest := SkewedRunKeepsInv(calls, 0);
    if calls == [] {
      newest := now;
      RunOfNothing(now);
    }
    MemoryIsEnough(s, grants, newest, key, now);
    GrantsWereRead(calls, now);
    SinceIsCount(Times(grants), now - HOUR, now);
    assert Since(s.calls, now - HOUR) == Since(Times(grants), now - HOUR);
  }

  lemma RunOfNothing(newest: int)
    ensures Run([]) == (State(map[], []), []) && Inv(State(map[], []), [], newest, 0)
  {
    NothingGranted(newest, 0);
  }

  // ----------------------------------------- any wait at all breaks the full limits

  lemma {:induction false} RunStep(calls: seq<Call>, c: Call)
    ensures var (s, grants) := Run(calls);
            var (t, refused) := Reserved(s, c.key, c.read);
            Run(calls + [c]) == (t, if refused.None? then grants + [Grant(c.key, c.read)] else grants)
  {
    assert (calls + [c])[..|calls|] == calls;
  }

  lemma LongerWaits(calls: seq<Call>, wait: nat, longer: nat)
    requires Possible(calls, wait) && wait <= longer
    ensures Possible(calls, longer)
  {
  }

  /** Distinct identities. */
  function Name(i: nat): (k: string)
    ensures |k| == i
  {
    seq(i, _ => 'x')
  }

  /** When the i-th of a crowd calls: all at one moment, or an hour apart. */
  function At(i: nat, spread: bool): int { if spread then i * HOUR else 1 }

  /** n identities call, one after the other and without waiting. */
  function Crowd(n: nat, spread: bool): (calls: seq<Call>)
    ensures |calls| == n && forall i | 0 <= i < n :: calls[i] == Call(Name(i + 1), At(i, spread), At(i, spread))
  {
    seq(n, i requires 0 <= i < n => Call(Name(i + 1), At(i, spread), At(i, spread)))
  }

  function Granted(n: nat, spread: bool): (grants: seq<Grant>)
    ensures |grants| == n && forall i | 0 <= i < n :: grants[i] == Grant(Name(i + 1), At(i, spread))
  {
    seq(n, i requires 0 <= i < n => Grant(Name(i + 1), At(i, spread)))
  }

  function Fired(n: nat, spread: bool): (fired: map<string, int>)
    ensures |fired| == n && forall i: nat :: Name(i) in fired <==> 1 <= i <= n
    ensures forall i: nat | 1 <= i <= n :: fired[Name(i)] == At(i - 1, spread)
  {
    if n == 0 then map[] else
      assert forall i: nat | i != n :: |Name(i)| != |Name(n)|;
      Fired(n - 1, spread)[Name(n) := At(n - 1, spread)]
  }

  /** The slice after the n-th call: all sixty of one moment, or the last one alone. */
  function Slice(n: nat, spread: bool): (ts: seq<int>)
    ensures spread && n > 0 ==> ts == [At(n - 1, true)]
    ensures !spread ==> |ts| == n && forall i | 0 <= i < n :: ts[i] == 1
  {
    if spread then (if n == 0 then [] else [At(n - 1, true)]) else seq(n, _ => 1)
  }

  predicate Fits(n: nat, spread: bool) { if spread then n <= MAX_FIRED else n <= MAX_CALLS_PER_HOUR }

  lemma CrowdGrows(n: nat, spread: bool)
    ensures Crowd(n + 1, spread) == Crowd(n, spread) + [Call(Name(n + 1), At(n, spread), At(n, spread))]
    ensures Granted(n + 1, spread) == Granted(n, spread) + [Grant(Name(n + 1), At(n, spread))]
    ensures Fired(n + 1, spread) == Fired(n, spread)[Name(n + 1) := At(n, spread)]
  {
  }

  lemma SliceGrows(n: nat, spread: bool)
    ensures Since(Slice(n, spread), At(n, spread) - HOUR) + [At(n, spread)] == Slice(n + 1, spread)
  {
    if spread {
      SinceDropsAll(Slice(n, spread), At(n, spread) - HOUR);
    } else {
      SinceKeepsAll(Slice(n, spread), 1 - HOUR);
    }
  }

  lemma {:induction false} SinceKeepsAll(ts: seq<int>, c: int)
    requires forall i | 0 <= i < |ts| :: ts[i] > c
    ensures Since(ts, c) == ts
  {
    if ts != [] {
      SinceKeepsAll(ts[1..], c);
    }
  }

  lemma {:induction false} SinceDropsAll(ts: seq<int>, c: int)
    requires forall i | 0 <= i < |ts| :: ts[i] <= c
    ensures Since(ts, c) == []
  {
    if ts != [] {
      SinceDropsAll(ts[1..], c);
    }
  }

  lemma OneMoreIsGranted(n: nat, spread: bool)
    requires Fits(n + 1, spread)
    ensures Reserved(State(Fired(n, spread), Slice(n, spread)), Name(n + 1), At(n, spread))
            == (State(Fired(n + 1, spread), Slice(n + 1, spread)), None)
  {
    hide Fired, Since, Slice, At;
    CrowdGrows(n, spread);
    SliceGrows(n, spread);
    SliceLength(n, spread);
  }

  lemma SliceLength(n: nat, spread: bool)
    requires Fits(n + 1, spread)
    ensures |Slice(n, spread)| < MAX_CALLS_PER_HOUR
  {
  }

  /** Such a crowd is granted its calls. */
  lemma {:induction false} CrowdIsGranted(n: nat, spread: bool)
    requires Fits(n, spread)
    ensures Run(Crowd(n, spread)) == (State(Fired(n, spread), Slice(n, spread)), Granted(n, spread))
  {
    if n == 0 {
      NobodyCalled(spread);
    } else {
      hide Fired, Reserved, Run, Slice, At;
      CrowdIsGranted(n - 1, spread);
      CrowdGrows(n - 1, spread);
      OneMoreIsGranted(n - 1, spread);
      RunStep(Crowd(n - 1, spread), Call(Name(n), At(n - 1, spread), At(n - 1, spread)));
    }
  }

  lemma NobodyCalled(spread: bool)
    ensures Run(Crowd(0, spread)) == (State(Fired(0, spread), Slice(0, spread)), Granted(0, spread))
  {
  }

  lemma CrowdIsPossible(n: nat, spread: bool)
    ensures Possible(Crowd(n, spread), 0)
  {
  }

  /** Two more calls that enter at one moment, the second with the older reading. */
  function Overtaking(n: nat, spread: bool, first: string, second: string, at: int): seq<Call> {
    Crowd(n, spread) + [Call(first, at, at)] + [Call(second, at - 1, at)]
  }

  lemma OvertakingIsPossible(n: nat, spread: bool, first: string, second: string, at: int)
    requires forall i | 0 <= i < n :: At(i, spread) <= at
    ensures Possible(Overtaking(n, spread, first, second, at), 1)
  {
    hide At;
    CrowdIsPossible(n, spread);
  }

  lemma OvertakingRuns(n: nat, spread: bool, first: string, second: string, at: int)
    requires Fits(n, spread)
    requires Reserved(State(Fired(n, spread), Slice(n, spread)), first, at).1.None?
    requires Reserved(Reserved(State(Fired(n, spread), Slice(n, spread)), first, at).0, second, at - 1).1.None?
    ensures Run(Overtaking(n, spread, first, second, at)).1
            == Granted(n, spread) + [Grant(first, at)] + [Grant(second, at - 1)]
  {
    hide Fired, Reserved, Run, Slice, At;
    CrowdIsGranted(n, spread);
    RunStep(Crowd(n, spread), Call(first, at, at));
    RunStep(Crowd(n, spread) + [Call(first, at, at)], Call(second, at - 1, at));
  }

  // Sixty calls just inside the hour before the later reading; the earlier-entering call makes the
  // slice forget them all.

  lemma BothAreGranted(n: nat)
    requires n == MAX_CALLS_PER_HOUR
    ensures var s := State(Fired(n, false), Slice(n, false));
            Reserved(s, Name(n + 1), HOUR + 1).1.None?
            && Reserved(Reserved(s, Name(n + 1), HOUR + 1).0, Name(n + 2), HOUR).1.None?
  {
    hide Fired, Since, Slice;
    var fired := Fired(n, false);
    SinceDropsAll(Slice(n, false), 1);
    assert |Name(n + 1)| != |Name(n + 2)|;
    assert Name(n + 1) !in fired && Name(n + 2) !in fired;
    assert |fired[Name(n + 1) := HOUR + 1]| == n + 1;
    assert [] + [HOUR + 1] == [HOUR + 1];
    OneLeft(HOUR + 1, 0);
  }

  lemma OneLeft(t: int, c: int)
    ensures |Since([t], c)| <= 1
  {
  }

  lemma {:induction false} CountsAll(ts: seq<int>, from: int, to: int)
    requires forall i | 0 <= i < |ts| :: from < ts[i] <= to
    ensures CountIn(ts, from, to) == |ts|
  {
    if ts != [] {
      CountsAll(ts[1..], from, to);
    }
  }

  lemma SixtyOneInAnHour(n: nat, b: Grant, a: Grant)
    requires n == MAX_CALLS_PER_HOUR && b.at == HOUR + 1 && a.at == HOUR
    ensures !HourlyLimit(Granted(n, false) + [b] + [a], 0)
  {
    var early := Granted(n, false);
    TimesGrow(early, b);
    TimesGrow(early + [b], a);
    CountJoined(Times(early) + [b.at], [a.at], 0, HOUR);
    CountJoined(Times(early), [b.at], 0, HOUR);
    CountsAll(Times(early), 0, HOUR);
    OneCount(b.at, 0, HOUR);
    OneCount(a.at, 0, HOUR);
    assert Ending(early + [b] + [a], HOUR - 0, HOUR) == 61;
  }

  lemma SixtyOneWithAWait() returns (calls: seq<Call>)
    ensures Possible(calls, 1) && !HourlyLimit(Run(calls).1, 0)
  {
    hide Fired, Reserved, Run, Slice;
    var n := MAX_CALLS_PER_HOUR;
    calls := Overtaking(n, false, Name(n + 1), Name(n + 2), HOUR + 1);
    OvertakingIsPossible(n, false, Name(n + 1), Name(n + 2), HOUR + 1);
    BothAreGranted(n);
    OvertakingRuns(n, false, Name(n + 1), Name(n + 2), HOUR + 1);
    SixtyOneInAnHour(n, Grant(Name(n + 1), HOUR + 1), Grant(Name(n + 2), HOUR));
  }

  /** Sixty an hour holds in every run whose waits for the lock are at most `wait` exactly if there is no wait. */
  lemma HourlyLimitIffNobodyWaits(wait: nat)
    ensures (forall calls | Possible(calls, wait) :: HourlyLimit(Run(calls).1, 0)) <==> wait == 0
  {
    hide Run, HourlyLimit, Possible;
    if wait == 0 {
      forall calls | Possible(calls, 0) ensures HourlyLimit(Run(calls).1, 0) {
        LimitsHold(calls, 0);
      }
    } else {
      var calls := SixtyOneWithAWait();
      LongerWaits(calls, 1, wait);
    }
  }

  // A crowd big enough for the map to be pruned; ten minutes after its last call somebody else
  // reads the clock, and the last caller, who had read it a moment before, enters second.

  lemma PrunerIsGranted(n: nat, at: int)
    requires n == MAX_FIRED && at == At(n - 1, true) + REFIRE_AFTER
    ensures var s := State(Fired(n, true), Slice(n, true));
            Reserved(s, Name(n + 1), at).1.None? && Reserved(Reserved(s, Name(n + 1), at).0, Name(n), at - 1).1.None?
  {
    hide Fired, Slice, At;
    var fired := Fired(n, true);
    var last := At(n - 1, true);
    assert |Name(n + 1)| != |Name(n)|;
    assert |fired[Name(n + 1) := at]| == n + 1;
    assert Slice(n, true) == [last];
    assert Since([last], at - HOUR) == [last];
    assert |Since([last] + [at], at - 1 - HOUR)| <= |[last] + [at]|;
  }

  lemma CrowdIsEarlier(n: nat, at: int)
    requires n > 0 && at == At(n - 1, true) + REFIRE_AFTER
    ensures forall i | 0 <= i < n :: At(i, true) <= at
  {
  }

  lemma RefiredWithAWait() returns (calls: seq<Call>)
    ensures Possible(calls, 1) && !Apart(Run(calls).1, 0)
  {
    hide Fired, Reserved, Run, Slice, At;
    var n := MAX_FIRED;
    var at := At(n - 1, true) + REFIRE_AFTER;
    calls := Overtaking(n, true, Name(n + 1), Name(n), at);
    CrowdIsEarlier(n, at);
    OvertakingIsPossible(n, true, Name(n + 1), Name(n), at);
    PrunerIsGranted(n, at);
    OvertakingRuns(n, true, Name(n + 1), Name(n), at);
    var grants := Run(calls).1;
    assert grants[n - 1] == Grant(Name(n), at - REFIRE_AFTER) && grants[n + 1] == Grant(Name(n), at - 1);
  }

  /** Likewise the ten minutes between two calls for one identity. */
  lemma ApartIffNobodyWaits(wait: nat)
    ensures (forall calls | Possible(calls, wait) :: Apart(Run(calls).1, 0)) <==> wait == 0
  {
    hide Run, Apart, Possible;
    if wait == 0 {
      forall calls | Possible(calls, 0) ensures Apart(Run(calls).1, 0) {
        LimitsHold(calls, 0);
      }
    } else {
      var calls := RefiredWithAWait();
      LongerWaits(calls, 1, wait);
    }
  }
}
