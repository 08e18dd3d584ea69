/** The pool of helper processes, one per user (internal/helperpool/pool.go). */
module HelperPool {
  // Entries are numbered and kept in a table, so that a caller can hold one after the
  // pool has forgotten it.  `acquire` is two critical sections with an unlocked
  // credential lookup between them; the second one is `Acquire` below, and it takes the
  // verdict of the first as an argument because it may be out of date by then.

  import opened Common

  datatype Creds = Creds(uid: int, gid: int, groups: seq<int>)

  const NO_CREDS := Creds(0, 0, [])

  predicate SameGroups(a: Creds, b: Creds) { a.gid == b.gid && a.groups == b.groups }

  /** `started` is what the entry's helper process was started with. */
  datatype Entry = Entry(user: string, started: Creds, inUse: nat, idleSince: int, creds: Creds, credsAt: int)

  datatype Config = Config(maxHelpers: nat, idleTimeout: int, credsTTL: int)

  datatype PoolError = Closed | AllBusy | SpawnFailed | NoSuchUser

  /**
   `lru` has the most recently used entry first.  `stopped` lists the Stop calls in
   order.  `held` and `leaked` are history: the checkouts callers have not given back,
   and the entries whose last request ended without anybody stopping the helper.
   */
  datatype State = State(helpers: map<string, nat>, lru: seq<nat>, entries: map<nat, Entry>, next: nat, closed: bool,
                         stopped: seq<nat>, held: multiset<nat>, leaked: set<nat>)

  predicate Live(s: State, e: nat) {
    e in s.entries && s.entries[e].user in s.helpers && s.helpers[s.entries[e].user] == e
  }

  function Without(q: seq<nat>, x: nat): (r: seq<nat>)
    ensures forall y :: y in r <==> y in q && y != x
    ensures x !in q ==> r == q
    ensures |r| <= |q|
  {
    if q == [] then []
    else if q[0] == x then Without(q[1..], x)
    else [q[0]] + Without(q[1..], x)
  }

  function Update(s: State, e: nat, x: Entry): State {
    s.(entries := s.entries[e := x])
  }

  function Stop(s: State, e: nat): State {
    s.(stopped := s.stopped + [e])
  }

  function CheckedOut(s: State, e: nat): State
    requires e in s.entries
  {
    Update(s, e, s.entries[e].(inUse := s.entries[e].inUse + 1))
      .(lru := [e] + Without(s.lru, e), held := s.held + multiset{e})
  }

  /** Takes an entry out of the pool; its helper is stopped now if nothing is in flight. */
  function Retired(s: State, e: nat): State
    requires e in s.entries
  {
    var t := s.(helpers := s.helpers - {s.entries[e].user}, lru := Without(s.lru, e));
    if s.entries[e].inUse == 0 then Stop(t, e) else t
  }

  function Released(s: State, e: nat, now: int): State
    requires e in s.entries && s.entries[e].inUse > 0
  {
    var x := s.entries[e];
    var t := s.(held := s.held - multiset{e});
    if x.inUse > 1 then Update(t, e, x.(inUse := x.inUse - 1))
    else
      var u := Update(t, e, x.(inUse := 0, idleSince := now));
      if x.user !in s.helpers then Stop(u, e)
      else if s.helpers[x.user] != e then u.(leaked := s.leaked + {e})
      else u
  }

  predicate Idle(s: State, e: nat) { e in s.entries && s.entries[e].inUse == 0 }

  predicate Lapsed(s: State, e: nat, cutoff: int) { Idle(s, e) && s.entries[e].idleSince < cutoff }

  function ReapOne(s: State, e: nat, cutoff: int): State {
    if Lapsed(s, e, cutoff) then Retired(s, e) else s
  }

  /** Retires the lapsed entries among todo, least recently used first. */
  function ReapAmong(s: State, todo: seq<nat>, cutoff: int): State
    decreases |todo|
  {
    if todo == [] then s
    else
      ReapAmong(ReapOne(s, todo[|todo| - 1], cutoff), todo[..|todo| - 1], cutoff)
  }

  function RetireAll(s: State, todo: seq<nat>): State
    decreases |todo|
  {
    if todo == [] then s
    else
      var e := todo[|todo| - 1];
      RetireAll(if e in s.entries then Retired(s, e) else s, todo[..|todo| - 1])
  }

  lemma RetireAllStep(s: State, q: seq<nat>, i: nat)
    requires i < |q| && q[i] in s.entries
    ensures RetireAll(s, q[..i + 1]) == RetireAll(Retired(s, q[i]), q[..i])
  {
    assert q[..i + 1][..i] == q[..i];
  }

  lemma NothingToRetire()
    ensures forall s :: RetireAll(s, []) == s
  {
  }

  /** The least recently used idle entry. */
  function LruIdle(s: State, q: seq<nat>): (r: Option<nat>)
    ensures r.Some? ==> r.value in q && Idle(s, r.value)
    ensures r.None? ==> forall e | e in q :: !Idle(s, e)
  {
    if q == [] then None
    else if Idle(s, q[|q| - 1]) then Some(q[|q| - 1])
    else LruIdle(s, q[..|q| - 1])
  }

  function Evict(s: State, max: nat): (State, bool)
    decreases |s.lru|
  {
    if |s.helpers| < max then (s, true)
    else
      match LruIdle(s, s.lru)
      case None => (s, false)
      case Some(v) =>
        var t := Retired(s, v);
        if |t.lru| < |s.lru| then Evict(t, max) else (t, false)
  }

  function RoomMade(s: State, c: Config, now: int): (State, bool) {
    Evict(ReapAmong(s, s.lru, now - c.idleTimeout), c.maxHelpers)
  }

  /** Starting a helper: the kernel may refuse, and root credentials always are. */
  predicate SpawnOk(creds: Creds, kernelOk: bool) { kernelOk && creds.uid != 0 && creds.gid != 0 }

  /** A new entry in the map and at the front of the list, before its first checkout. */
  function Added(s: State, user: string, creds: Creds, now: int): State {
    s.(helpers := s.helpers[user := s.next], lru := [s.next] + s.lru,
       entries := s.entries[s.next := Entry(user, creds, 0, 0, creds, now)], next := s.next + 1)
  }

  function Start(s: State, user: string, creds: Creds, now: int): State {
    CheckedOut(Added(s, user, creds, now), s.next)
  }

  /** The first critical section of acquire: whether credentials must be looked up. */
  function NeedsCreds(s: State, c: Config, user: string, now: int): bool
    requires user in s.helpers ==> s.helpers[user] in s.entries
  {
    user !in s.helpers || now - s.entries[s.helpers[user]].credsAt >= c.credsTTL
  }

  /** Replaces what acquire knows about the user's entry; an entry with other groups leaves the pool. */
  function Refresh(s: State, e: nat, creds: Creds, now: int): State
    requires e in s.entries
  {
    var s1 := Update(s, e, s.entries[e].(creds := creds, credsAt := now));
    if SameGroups(creds, s.entries[e].started) then s1 else Retired(s1, e)
  }

  function Spawned(s: State, c: Config, user: string, creds: Creds, kernelOk: bool, now: int): (State, Result<nat, PoolError>) {
    var (s1, room) := RoomMade(s, c, now);
    if !room then (s1, Err(AllBusy))
    else if !SpawnOk(creds, kernelOk) then (s1, Err(SpawnFailed))
    else (Start(s1, user, creds, now), Ok(s1.next))
  }

  /**
   The second critical section of acquire.  `resolved` is None when the first one saw a
   cached entry with fresh credentials and skipped the lookup.
   */
  function Acquired(s: State, c: Config, user: string, resolved: Option<Creds>, kernelOk: bool, now: int)
    : (State, Result<nat, PoolError>)
    requires user in s.helpers ==> s.helpers[user] in s.entries
  {
    if s.closed then (s, Err(Closed))
    else if user !in s.helpers then
      Spawned(s, c, user, if resolved.Some? then resolved.value else NO_CREDS, kernelOk, now)
    else
      var e := s.helpers[user];
      if resolved.None? then (CheckedOut(s, e), Ok(e))
      else if SameGroups(resolved.value, s.entries[e].started) then (CheckedOut(Refresh(s, e, resolved.value, now), e), Ok(e))
      else Spawned(Refresh(s, e, resolved.value, now), c, user, resolved.value, kernelOk, now)
  }

  function AllClosed(s: State): State {
    RetireAll(s.(closed := true), s.lru)
  }

  // ---------------------------------------------------------------- invariant

  /** The map and the list hold the same entries, once each. */
  ghost predicate Indexed(s: State) {
    && (forall u | u in s.helpers :: s.helpers[u] in s.entries && s.entries[s.helpers[u]].user == u)
    && NoDup(s.lru)
    && (forall e | e in s.lru :: Live(s, e))
    && (forall e | Live(s, e) :: e in s.lru)
  }

  /** Reference counts are the callers' outstanding checkouts, and nothing ever runs as root. */
  ghost predicate Counted(s: State) {
    && (forall e | e in s.entries :: e < s.next && s.entries[e].inUse == s.held[e])
    && (forall e | e in s.held :: e in s.entries)
    && (forall e | e in s.entries :: s.entries[e].started.uid != 0 && s.entries[e].started.gid != 0)
  }

  ghost predicate Gone(s: State, e: nat) { e in s.entries && !Live(s, e) && s.entries[e].inUse == 0 }

  /** A helper is stopped at most once, and only when it is idle and out of the pool. */
  ghost predicate Ended(s: State) {
    && NoDup(s.stopped)
    && (forall e | e in s.stopped :: Gone(s, e) && e !in s.leaked)
    && (forall e | e in s.leaked :: Gone(s, e))
    && (forall e | Gone(s, e) :: e in s.stopped || e in s.leaked)
  }

  ghost predicate Linked(s: State) { Indexed(s) && Counted(s) && Ended(s) }

  /** What is recorded for a live entry is what its helper was started with. */
  ghost predicate Matching(s: State) {
    forall e | Live(s, e) :: SameGroups(s.entries[e].creds, s.entries[e].started)
  }

  ghost predicate Inv(s: State, c: Config) {
    Linked(s) && Matching(s) && |s.helpers| <= c.maxHelpers && (s.closed ==> s.helpers == map[])
  }

  lemma HelpersShrink(m: map<string, nat>, u: string)
    requires u in m
    ensures |m - {u}| == |m| - 1
  {
    assert (m - {u}).Keys == m.Keys - {u};
  }

  lemma {:induction false} WithoutOnce(q: seq<nat>, x: nat)
    ensures NoDup(q) ==> NoDup(Without(q, x))
    ensures x in q ==> |Without(q, x)| < |q|
  {
    if q != [] {
      WithoutOnce(q[1..], x);
      if NoDup(q) {
        assert forall i | 0 <= i < |q[1..]| :: q[1..][i] == q[i + 1];
        assert q[0] !in q[1..];
      }
    }
  }

  lemma CheckoutKeeps(s: State, e: nat)
    requires Linked(s) && Live(s, e)
    ensures var t := CheckedOut(s, e);
            Linked(t) && t.helpers == s.helpers && (forall x :: Live(t, x) <==> Live(s, x)) && (Matching(s) ==> Matching(t))
  {
    var t := CheckedOut(s, e);
    WithoutOnce(s.lru, e);
    assert forall x :: Live(t, x) <==> Live(s, x);
    assert forall x :: Gone(t, x) <==> Gone(s, x);
    assert Indexed(t);
    assert Counted(t);
    assert Ended(t);
  }

  lemma RetireIndexed(s: State, e: nat)
    requires Indexed(s) && Live(s, e)
    ensures Indexed(Retired(s, e)) && |Retired(s, e).helpers| == |s.helpers| - 1 && |Retired(s, e).lru| < |s.lru|
    ensures forall x :: Live(Retired(s, e), x) <==> Live(s, x) && x != e
  {
    HelpersShrink(s.helpers, s.entries[e].user);
    WithoutOnce(s.lru, e);
    assert forall x :: Live(Retired(s, e), x) <==> Live(s, x) && x != e;
  }

  lemma StopEnded(s: State, t: State, e: nat)
    requires Ended(s) && Live(s, e) && e in s.entries && t.entries == s.entries && t.leaked == s.leaked
    requires forall x :: Live(t, x) <==> Live(s, x) && x != e
    requires t.stopped == if s.entries[e].inUse == 0 then s.stopped + [e] else s.stopped
    ensures Ended(t)
  {
    assert !Gone(s, e) && e !in s.stopped && e !in s.leaked;
    assert forall x :: Gone(t, x) <==> Gone(s, x) || (x == e && s.entries[e].inUse == 0);
  }

  /** What retiring some live entries leaves alone. */
  ghost predicate Trimmed(s: State, t: State) {
    && |t.helpers| <= |s.helpers| && t.next == s.next && t.closed == s.closed
    && t.entries == s.entries && t.held == s.held && t.leaked == s.leaked && s.stopped <= t.stopped
    && (forall x | Live(t, x) :: Live(s, x))
  }

  lemma RetireKeeps(s: State, e: nat)
    requires Linked(s) && Live(s, e)
    ensures Linked(Retired(s, e)) && Trimmed(s, Retired(s, e)) && |Retired(s, e).helpers| == |s.helpers| - 1
    ensures |Retired(s, e).lru| < |s.lru|
    ensures forall x :: Live(Retired(s, e), x) <==> Live(s, x) && x != e
  {
    RetireIndexed(s, e);
    StopEnded(s, Retired(s, e), e);
  }

  lemma MatchingTrims(s: State, t: State)
    requires Matching(s) && Trimmed(s, t)
    ensures Matching(t)
  {
  }

  /** What Release does to the entry, its count and the two ways an entry can end. */
  lemma ReleaseShape(s: State, e: nat, now: int)
    requires e in s.entries && s.entries[e].inUse > 0
    ensures var t := Released(s, e, now);
            && t.helpers == s.helpers && t.lru == s.lru && t.next == s.next && t.closed == s.closed
            && t.held == s.held - multiset{e}
            && t.entries == s.entries[e := t.entries[e]]
            && t.entries[e].inUse == s.entries[e].inUse - 1 && t.entries[e].user == s.entries[e].user
            && t.entries[e].started == s.entries[e].started && t.entries[e].creds == s.entries[e].creds
            && (t.entries[e].inUse > 0 || Live(s, e) ==> t.stopped == s.stopped && t.leaked == s.leaked)
            && (t.entries[e].inUse == 0 && !Live(s, e) ==>
                  // Stopped by whoever drops the last reference, unless the user has a newer helper by then.
                  if s.entries[e].user in s.helpers then t.stopped == s.stopped && t.leaked == s.leaked + {e}
                  else t.stopped == s.stopped + [e] && t.leaked == s.leaked)
  {
  }

  lemma ReleaseCounted(s: State, e: nat, t: State)
    requires Counted(s) && e in s.held && e in s.entries
    requires t.next == s.next && t.held == s.held - multiset{e}
    requires e in t.entries && t.entries == s.entries[e := t.entries[e]]
    requires t.entries[e].inUse == s.entries[e].inUse - 1 && t.entries[e].started == s.entries[e].started
    ensures Counted(t)
  {
  }

  lemma ReleaseEnded(s: State, e: nat, t: State)
    requires Ended(s) && e in s.entries && s.entries[e].inUse > 0 && t.helpers == s.helpers
    requires e in t.entries && t.entries == s.entries[e := t.entries[e]] && t.entries[e].user == s.entries[e].user
    requires t.entries[e].inUse > 0 || Live(s, e) ==> t.stopped == s.stopped && t.leaked == s.leaked
    requires t.entries[e].inUse == 0 && !Live(s, e) ==>
               (t.stopped == s.stopped && t.leaked == s.leaked + {e}) || (t.stopped == s.stopped + [e] && t.leaked == s.leaked)
    ensures Ended(t)
  {
    assert !Gone(s, e) && e !in s.stopped && e !in s.leaked;
    forall x | x != e ensures Gone(t, x) <==> Gone(s, x) {
    }
    assert Gone(t, e) <==> t.entries[e].inUse == 0 && !Live(s, e);
  }

  lemma ReleaseKeeps(s: State, e: nat, now: int)
    requires Linked(s) && e in s.held
    ensures e in s.entries && s.entries[e].inUse > 0
    ensures var t := Released(s, e, now);
            Linked(t) && t.helpers == s.helpers && s.stopped <= t.stopped && (Matching(s) ==> Matching(t))
  {
    assert s.entries[e].inUse == s.held[e];
    var t := Released(s, e, now);
    ReleaseShape(s, e, now);
    ReleaseCounted(s, e, t);
    ReleaseEnded(s, e, t);
    forall x ensures Live(t, x) <==> Live(s, x) {
    }
  }

  lemma ReapOneKeeps(s: State, e: nat, cutoff: int)
    requires Linked(s) && Live(s, e)
    ensures Linked(ReapOne(s, e, cutoff)) && Trimmed(s, ReapOne(s, e, cutoff))
    ensures forall x :: Live(ReapOne(s, e, cutoff), x) <==> Live(s, x) && !(x == e && Lapsed(s, x, cutoff))
  {
    if Lapsed(s, e, cutoff) {
      RetireKeeps(s, e);
    }
  }

  lemma {:induction false} ReapKeeps(s: State, todo: seq<nat>, cutoff: int)
    requires Linked(s) && NoDup(todo) && forall e | e in todo :: Live(s, e)
    ensures Linked(ReapAmong(s, todo, cutoff)) && Trimmed(s, ReapAmong(s, todo, cutoff))
    ensures forall x :: Live(ReapAmong(s, todo, cutoff), x) <==> Live(s, x) && !(x in todo && Lapsed(s, x, cutoff))
    decreases |todo|
  {
    if todo != [] {
      var e, rest := todo[|todo| - 1], todo[..|todo| - 1];
      ReapOneKeeps(s, e, cutoff);
      LastApart(todo);
      ReapKeeps(ReapOne(s, e, cutoff), rest, cutoff);
    }
  }

  lemma LastApart(q: seq<nat>)
    requires q != [] && NoDup(q)
    ensures NoDup(q[..|q| - 1]) && q[|q| - 1] !in q[..|q| - 1] && q[|q| - 1] in q
    ensures forall x :: x in q <==> x in q[..|q| - 1] || x == q[|q| - 1]
  {
    assert q == q[..|q| - 1] + [q[|q| - 1]];
  }

  lemma {:induction false} EvictKeeps(s: State, max: nat)
    requires Linked(s) && 0 < max && |s.helpers| <= max
    ensures var (t, ok) := Evict(s, max);
            && Linked(t) && Trimmed(s, t)
            && (ok ==> |t.helpers| < max)
            // Only an idle entry is ever evicted, and the pool refuses only when all are busy.
            && (forall x | Live(s, x) && !Idle(s, x) :: Live(t, x))
            && (!ok ==> t == s && |s.helpers| == max && forall x | Live(s, x) :: !Idle(s, x))
  {
    if |s.helpers| == max {
      var r := LruIdle(s, s.lru);
      if r.Some? {
        RetireKeeps(s, r.value);
      }
    }
  }

  lemma {:induction false} MakeRoomKeeps(s: State, c: Config, now: int)
    requires Linked(s) && 0 < c.maxHelpers && |s.helpers| <= c.maxHelpers
    ensures var (t, ok) := RoomMade(s, c, now);
            && Linked(t) && Trimmed(s, t) && (ok ==> |t.helpers| < c.maxHelpers)
            && (forall x | Live(s, x) && !Idle(s, x) :: Live(t, x))
            && (!ok ==> |t.helpers| == c.maxHelpers && forall x | Live(t, x) :: !Idle(t, x))
  {
    var s1 := ReapAmong(s, s.lru, now - c.idleTimeout);
    ReapKeeps(s, s.lru, now - c.idleTimeout);
    assert forall x | Live(s, x) && !Idle(s, x) :: Live(s1, x) && !Idle(s1, x);
    EvictKeeps(s1, c.maxHelpers);
  }

  lemma NoDupCons(x: nat, q: seq<nat>)
    requires NoDup(q) && x !in q
    ensures NoDup([x] + q)
  {
  }

  lemma AddedLive(s: State, user: string, creds: Creds, now: int)
    requires Indexed(s) && Counted(s) && user !in s.helpers
    ensures s.next !in s.entries && s.next !in s.lru
    ensures forall x :: Live(Added(s, user, creds, now), x) <==> Live(s, x) || x == s.next
  {
    var u := Added(s, user, creds, now);
    assert s.next !in s.entries && s.next !in s.lru;
    forall y ensures Live(u, y) <==> Live(s, y) || y == s.next {
    }
  }

  lemma AddedIndexed(s: State, user: string, creds: Creds, now: int)
    requires Indexed(s) && Counted(s) && user !in s.helpers
    ensures Indexed(Added(s, user, creds, now)) && |Added(s, user, creds, now).helpers| == |s.helpers| + 1
    ensures forall x :: Live(Added(s, user, creds, now), x) <==> Live(s, x) || x == s.next
  {
    hide Live, Counted;
    AddedLive(s, user, creds, now);
    NoDupCons(s.next, s.lru);
    assert Added(s, user, creds, now).helpers.Keys == s.helpers.Keys + {user};
  }

  lemma AddedCounted(s: State, user: string, creds: Creds, now: int)
    requires Counted(s) && SpawnOk(creds, true)
    ensures Counted(Added(s, user, creds, now))
  {
    assert s.next !in s.held;
  }

  lemma AddedEnded(s: State, user: string, creds: Creds, now: int)
    requires Ended(s) && s.next !in s.entries
    requires forall x :: Live(Added(s, user, creds, now), x) <==> Live(s, x) || x == s.next
    ensures Ended(Added(s, user, creds, now))
  {
    assert forall y :: Gone(Added(s, user, creds, now), y) <==> Gone(s, y);
  }

  lemma StartKeeps(s: State, user: string, creds: Creds, now: int)
    requires Linked(s) && Matching(s) && user !in s.helpers && SpawnOk(creds, true)
    ensures var t := Start(s, user, creds, now);
            && Linked(t) && Matching(t) && |t.helpers| == |s.helpers| + 1
            && (forall x :: Live(t, x) <==> Live(s, x) || x == s.next)
            && s.stopped == t.stopped
  {
    AddedIndexed(s, user, creds, now);
    AddedCounted(s, user, creds, now);
    AddedEnded(s, user, creds, now);
    var u := Added(s, user, creds, now);
    assert Matching(u);
    CheckoutKeeps(u, s.next);
  }

  lemma UpdateKeeps(s: State, e: nat, x: Entry)
    requires Linked(s) && e in s.entries
    requires x.user == s.entries[e].user && x.started == s.entries[e].started && x.inUse == s.entries[e].inUse
    ensures Linked(Update(s, e, x)) && forall y :: Live(Update(s, e, x), y) <==> Live(s, y)
  {
    var t := Update(s, e, x);
    assert forall y :: Live(t, y) <==> Live(s, y);
    assert forall y :: Gone(t, y) <==> Gone(s, y);
    assert Indexed(t);
    assert Counted(t);
    assert Ended(t);
  }

  lemma RefreshKeeps(s: State, e: nat, creds: Creds, now: int)
    requires Linked(s) && Matching(s) && Live(s, e)
    ensures var t := Refresh(s, e, creds, now);
            && Linked(t) && Matching(t) && |t.helpers| <= |s.helpers| && s.stopped <= t.stopped && t.closed == s.closed
            && (forall y :: Live(t, y) <==> Live(s, y) && (y != e || SameGroups(creds, s.entries[e].started)))
            && (forall y | y in s.entries :: y in t.entries && t.entries[y].user == s.entries[y].user && t.entries[y].inUse == s.entries[y].inUse)
  {
    var s1 := Update(s, e, s.entries[e].(creds := creds, credsAt := now));
    UpdateKeeps(s, e, s.entries[e].(creds := creds, credsAt := now));
    if !SameGroups(creds, s.entries[e].started) {
      RetireKeeps(s1, e);
    }
  }

  /** What a caller gets: an entry that is in the pool, its own, in use and with the groups just looked up. */
  ghost predicate Granted(t: State, user: string, resolved: Option<Creds>, e: nat) {
    && Live(t, e) && t.entries[e].user == user && t.entries[e].inUse > 0 && e !in t.stopped
    && (resolved.Some? ==> SameGroups(resolved.value, t.entries[e].started))
  }

  /** Entries that are serving a request stay in the pool, the caller's own user excepted. */
  ghost predicate BusyStay(s: State, t: State, user: string) {
    forall x | Live(s, x) && !Idle(s, x) && s.entries[x].user != user :: Live(t, x)
  }

  lemma {:induction false} SpawnKeeps(s: State, c: Config, user: string, creds: Creds, kernelOk: bool, now: int)
    requires Linked(s) && Matching(s) && 0 < c.maxHelpers && |s.helpers| <= c.maxHelpers && user !in s.helpers && !s.closed
    ensures var (t, r) := Spawned(s, c, user, creds, kernelOk, now);
            && Inv(t, c) && s.stopped <= t.stopped
            && (forall x | Live(s, x) && !Idle(s, x) :: Live(t, x))
            && (r.Ok? ==> Granted(t, user, Some(creds), r.value))
  {
    var (s1, room) := RoomMade(s, c, now);
    MakeRoomKeeps(s, c, now);
    MatchingTrims(s, s1);
    if room && SpawnOk(creds, kernelOk) {
      if user in s1.helpers {
        assert Live(s1, s1.helpers[user]);
      }
      StartKeeps(s1, user, creds, now);
      var t := Start(s1, user, creds, now);
      assert Live(t, s1.next) && t.entries[s1.next].inUse == 1;
      assert !Gone(t, s1.next);
    }
  }

  lemma ReuseKeeps(s: State, c: Config, e: nat)
    requires Linked(s) && Matching(s) && |s.helpers| <= c.maxHelpers && !s.closed && Live(s, e)
    ensures Inv(CheckedOut(s, e), c) && Granted(CheckedOut(s, e), s.entries[e].user, None, e)
    ensures CheckedOut(s, e).entries[e].started == s.entries[e].started && CheckedOut(s, e).stopped == s.stopped
    ensures forall x | Live(s, x) :: Live(CheckedOut(s, e), x)
  {
    CheckoutKeeps(s, e);
    assert !Gone(CheckedOut(s, e), e);
  }

  ghost predicate AcquireOk(s: State, t: State, r: Result<nat, PoolError>, c: Config, user: string, resolved: Option<Creds>) {
    Inv(t, c) && s.stopped <= t.stopped && BusyStay(s, t, user) && (r.Ok? ==> Granted(t, user, resolved, r.value))
  }

  lemma {:induction false} AcquireReplacing(s: State, c: Config, user: string, creds: Creds, kernelOk: bool, now: int)
    requires Inv(s, c) && 0 < c.maxHelpers && !s.closed && user in s.helpers
    ensures var (t, r) := Acquired(s, c, user, Some(creds), kernelOk, now);
            AcquireOk(s, t, r, c, user, Some(creds))
  {
    var e := s.helpers[user];
    RefreshKeeps(s, e, creds, now);
    var s1 := Refresh(s, e, creds, now);
    if SameGroups(creds, s.entries[e].started) {
      ReuseKeeps(s1, c, e);
    } else {
      SpawnKeeps(s1, c, user, creds, kernelOk, now);
      var t := Spawned(s1, c, user, creds, kernelOk, now).0;
      forall x | Live(s, x) && !Idle(s, x) && s.entries[x].user != user ensures Live(t, x) {
        assert Live(s1, x) && !Idle(s1, x);
      }
    }
  }

  /** The second section keeps the invariant from any state, however stale the first one's verdict. */
  lemma {:induction false} AcquireKeeps(s: State, c: Config, user: string, resolved: Option<Creds>, kernelOk: bool, now: int)
    requires Inv(s, c) && 0 < c.maxHelpers
    ensures var (t, r) := Acquired(s, c, user, resolved, kernelOk, now);
            AcquireOk(s, t, r, c, user, resolved)
  {
    if !s.closed {
      if user !in s.helpers {
        SpawnKeeps(s, c, user, if resolved.Some? then resolved.value else NO_CREDS, kernelOk, now);
      } else if resolved.None? {
        ReuseKeeps(s, c, s.helpers[user]);
      } else {
        AcquireReplacing(s, c, user, resolved.value, kernelOk, now);
      }
    }
  }

  lemma {:induction false} RetireAllKeeps(s: State, todo: seq<nat>)
    requires Linked(s) && NoDup(todo) && forall e | e in todo :: Live(s, e)
    ensures Linked(RetireAll(s, todo)) && Trimmed(s, RetireAll(s, todo))
    ensures forall x :: Live(RetireAll(s, todo), x) <==> Live(s, x) && x !in todo
    decreases |todo|
  {
    if todo != [] {
      LastApart(todo);
      RetireKeeps(s, todo[|todo| - 1]);
      RetireAllKeeps(Retired(s, todo[|todo| - 1]), todo[..|todo| - 1]);
    }
  }

  lemma ClosingRetires(s: State)
    requires Linked(s)
    ensures Linked(AllClosed(s)) && Trimmed(s.(closed := true), AllClosed(s)) && forall x :: !Live(AllClosed(s), x)
  {
    var s1 := s.(closed := true);
    assert forall x :: Live(s1, x) <==> Live(s, x);
    assert forall x :: Gone(s1, x) <==> Gone(s, x);
    RetireAllKeeps(s1, s1.lru);
  }

  lemma OwnersAreLive(s: State, user: string)
    requires Indexed(s) && user in s.helpers
    ensures Live(s, s.helpers[user])
  {
  }

  /** Close empties the pool; helpers still serving a request are not stopped yet. */
  lemma CloseKeeps(s: State, c: Config)
    requires Inv(s, c)
    ensures Inv(AllClosed(s), c) && AllClosed(s).closed && s.stopped <= AllClosed(s).stopped
    ensures forall e | e in s.entries && s.entries[e].inUse > 0 :: e !in AllClosed(s).stopped
  {
    hide AllClosed, Counted;
    ClosingRetires(s);
    var t := AllClosed(s);
    if t.helpers != map[] {
      var u :| u in t.helpers;
      OwnersAreLive(t, u);
      assert false;
    }
    forall e | e in s.entries && s.entries[e].inUse > 0 ensures e !in t.stopped {
      assert !Gone(t, e);
    }
  }

  // -------------------------------------------------------------------- runs

  datatype Action =
    | DoAcquire(user: string, resolved: Option<Creds>, kernelOk: bool, now: int)
    | DoRelease(e: nat, now: int)
    | DoReap(now: int)
    | DoClose

  /** Callers give back only what they hold. */
  predicate Enabled(s: State, a: Action) {
    && (a.DoRelease? ==> a.e in s.held && a.e in s.entries && s.entries[a.e].inUse > 0)
    && (a.DoAcquire? && a.user in s.helpers ==> s.helpers[a.user] in s.entries)
  }

  function Apply(s: State, c: Config, a: Action): State
    requires Enabled(s, a)
  {
    match a
    case DoAcquire(user, resolved, kernelOk, now) => Acquired(s, c, user, resolved, kernelOk, now).0
    case DoRelease(e, now) => Released(s, e, now)
    case DoReap(now) => ReapAmong(s, s.lru, now - c.idleTimeout)
    case DoClose => AllClosed(s)
  }

  lemma StepAcquire(s: State, c: Config, a: Action)
    requires Inv(s, c) && 0 < c.maxHelpers && a.DoAcquire? && Enabled(s, a)
    ensures Inv(Apply(s, c, a), c) && s.stopped <= Apply(s, c, a).stopped
  {
    AcquireKeeps(s, c, a.user, a.resolved, a.kernelOk, a.now);
  }

  lemma StepRelease(s: State, c: Config, a: Action)
    requires Inv(s, c) && a.DoRelease? && Enabled(s, a)
    ensures Inv(Apply(s, c, a), c) && s.stopped <= Apply(s, c, a).stopped
  {
    ReleaseKeeps(s, a.e, a.now);
    ReleaseShape(s, a.e, a.now);
  }

  lemma StepReap(s: State, c: Config, a: Action)
    requires Inv(s, c) && a.DoReap?
    ensures Inv(Apply(s, c, a), c) && s.stopped <= Apply(s, c, a).stopped
  {
    ReapKeeps(s, s.lru, a.now - c.idleTimeout);
    MatchingTrims(s, Apply(s, c, a));
  }

  lemma StepKeepsInv(s: State, c: Config, a: Action)
    requires Inv(s, c) && 0 < c.maxHelpers && Enabled(s, a)
    ensures Inv(Apply(s, c, a), c) && s.stopped <= Apply(s, c, a).stopped
  {
    match a
    case DoAcquire(_, _, _, _) => StepAcquire(s, c, a);
    case DoRelease(_, _) => StepRelease(s, c, a);
    case DoReap(_) => StepReap(s, c, a);
    case DoClose => CloseKeeps(s, c);
  }

  const EMPTY := State(map[], [], map[], 0, false, [], multiset{}, {})

  ghost predicate Run(b: seq<State>, c: Config, acts: seq<Action>) {
    && |b| == |acts| + 1 && b[0] == EMPTY && 0 < c.maxHelpers
    && forall i | 0 <= i < |acts| :: Enabled(b[i], acts[i]) && b[i + 1] == Apply(b[i], c, acts[i])
  }

  /**
   Over every run, however the sections of concurrent acquires interleave: the map and
   the list agree, the pool holds at most maxHelpers entries, reference counts are the
   outstanding checkouts, and recorded groups are the groups helpers were started with.
   */
  lemma {:induction false} RunKeepsInv(b: seq<State>, c: Config, acts: seq<Action>, n: nat)
    requires Run(b, c, acts) && n < |b|
    ensures Inv(b[n], c)
  {
    if n > 0 {
      RunKeepsInv(b, c, acts, n - 1);
      StepKeepsInv(b[n - 1], c, acts[n - 1]);
    }
  }

  lemma StoppedIsGone(s: State, c: Config, e: nat)
    requires Inv(s, c) && e in s.stopped
    ensures NoDup(s.stopped) && e !in s.held && !Live(s, e)
  {
    assert Gone(s, e);
  }

  lemma StoppedIsNotHandedOut(s: State, c: Config, a: Action, e: nat)
    requires Inv(s, c) && 0 < c.maxHelpers && e in s.stopped && a.DoAcquire? && Enabled(s, a)
    ensures Acquired(s, c, a.user, a.resolved, a.kernelOk, a.now).1 != Ok(e)
  {
    hide Acquired, Inv;
    AcquireKeeps(s, c, a.user, a.resolved, a.kernelOk, a.now);
  }

  /**
   A helper that has been stopped stays stopped: it is never stopped a second time, it
   is out of the pool for good and no later acquire hands it out.
   */
  lemma {:induction false} StoppedForGood(b: seq<State>, c: Config, acts: seq<Action>, i: nat, n: nat, e: nat)
    requires Run(b, c, acts) && i <= n < |b| && e in b[i].stopped
    ensures b[i].stopped <= b[n].stopped && NoDup(b[n].stopped)
    ensures e !in b[n].held && !Live(b[n], e)
    ensures n < |acts| && acts[n].DoAcquire? ==>
              Enabled(b[n], acts[n]) && Acquired(b[n], c, acts[n].user, acts[n].resolved, acts[n].kernelOk, acts[n].now).1 != Ok(e)
    decreases n - i
  {
    hide Inv, Enabled, Apply, Acquired;
    RunKeepsInv(b, c, acts, n);
    if i < n {
      StoppedForGood(b, c, acts, i, n - 1, e);
      RunKeepsInv(b, c, acts, n - 1);
      StepKeepsInv(b[n - 1], c, acts[n - 1]);
    }
    StoppedIsGone(b[n], c, e);
    if n < |acts| && acts[n].DoAcquire? {
      StoppedIsNotHandedOut(b[n], c, acts[n], e);
    }
  }

  // ---------------------------------------------------- how many helpers run

  /** Started and not told to stop. */
  ghost function Running(s: State): set<nat> { set e | e in s.entries && e !in s.stopped }

  /** Out of the pool but still finishing a request. */
  ghost function Draining(s: State): set<nat> { set e | e in s.entries && !Live(s, e) && s.entries[e].inUse > 0 }

  lemma {:induction false} InjectiveValues(m: map<string, nat>)
    requires forall u, v | u in m && v in m && m[u] == m[v] :: u == v
    ensures |m.Values| == |m|
  {
    if m != map[] {
      var u :| u in m;
      var r := m - {u};
      HelpersShrink(m, u);
      InjectiveValues(r);
      forall v ensures v in m.Values <==> v in r.Values || v == m[u] {
        if v in m.Values && v != m[u] {
          var w :| w in m && m[w] == v;
          assert w in r && r[w] == v;
        }
        if v == m[u] {
          assert u in m;
        }
      }
      assert m.Values == r.Values + {m[u]};
      assert m[u] !in r.Values;
    }
  }

  ghost function InPool(s: State): set<nat> { set e | e in s.entries && Live(s, e) }

  lemma InPoolCount(s: State)
    requires Indexed(s)
    ensures |InPool(s)| == |s.helpers|
  {
    InjectiveValues(s.helpers);
    forall e ensures e in s.helpers.Values <==> e in InPool(s) {
      if e in s.helpers.Values {
        var u :| u in s.helpers && s.helpers[u] == e;
      }
    }
    assert s.helpers.Values == InPool(s);
  }

  lemma RunningParts(s: State)
    requires Ended(s)
    ensures Running(s) == InPool(s) + Draining(s) + s.leaked
    ensures InPool(s) !! Draining(s) && InPool(s) !! s.leaked && Draining(s) !! s.leaked
  {
    forall e ensures e in Running(s) <==> e in InPool(s) || e in Draining(s) || e in s.leaked {
      assert e in s.leaked ==> Gone(s, e);
      assert e in s.stopped ==> Gone(s, e);
    }
  }

  /** Running helpers are those in the pool, those draining and those leaked; maxHelpers bounds the first kind only. */
  lemma RunningIsPoolPlusRest(s: State, c: Config)
    requires Inv(s, c)
    ensures |Running(s)| == |s.helpers| + |Draining(s)| + |s.leaked|
    ensures |Running(s)| <= c.maxHelpers + |Draining(s)| + |s.leaked|
  {
    InPoolCount(s);
    RunningParts(s);
    assert |InPool(s) + Draining(s)| == |InPool(s)| + |Draining(s)|;
  }

  // What takes a helper out of the pool while it still serves.

  /** An acquire that finds its user's entry busy and started with other groups than those just looked up. */
  predicate ReplacesBusy(s: State, a: Action) {
    a.DoAcquire? && !s.closed && a.resolved.Some? && a.user in s.helpers && s.helpers[a.user] in s.entries
    && var x := s.entries[s.helpers[a.user]]; x.inUse > 0 && !SameGroups(a.resolved.value, x.started)
  }

  ghost predicate ClosesBusy(s: State, a: Action) { a.DoClose? && exists e :: Live(s, e) && !Idle(s, e) }

  /** No leak, and no count changed but that of the entry granted. */
  ghost predicate Touches(s: State, t: State, r: Result<nat, PoolError>) {
    && t.leaked == s.leaked && s.entries.Keys <= t.entries.Keys
    && forall e | e in t.entries && !(r.Ok? && e == r.value) ::
         e in s.entries && t.entries[e].inUse == s.entries[e].inUse && t.entries[e].user == s.entries[e].user
         && t.entries[e].idleSince == s.entries[e].idleSince
  }

  /** An acquire touches one count: that of the entry it grants. */
  lemma {:induction false} AcquireTouches(s: State, c: Config, user: string, resolved: Option<Creds>, kernelOk: bool, now: int)
    requires Inv(s, c) && 0 < c.maxHelpers
    ensures var (t, r) := Acquired(s, c, user, resolved, kernelOk, now);
            Touches(s, t, r)
  {
    hide Spawned;
    if !s.closed {
      if user !in s.helpers {
        SpawnTouches(s, c, user, if resolved.Some? then resolved.value else NO_CREDS, kernelOk, now);
      } else if resolved.Some? {
        RefreshTouches(s, c, user, resolved.value, kernelOk, now);
      }
    }
  }

  lemma {:induction false} RefreshTouches(s: State, c: Config, user: string, creds: Creds, kernelOk: bool, now: int)
    requires Inv(s, c) && 0 < c.maxHelpers && user in s.helpers && !s.closed
    ensures var (t, r) := Acquired(s, c, user, Some(creds), kernelOk, now);
            Touches(s, t, r)
  {
    hide Spawned, Refresh, Counted, Ended, Matching;
    var e := s.helpers[user];
    RefreshKeeps(s, e, creds, now);
    RefreshKeys(s, e, creds, now);
    if !SameGroups(creds, s.entries[e].started) {
      SpawnTouches(Refresh(s, e, creds, now), c, user, creds, kernelOk, now);
    }
  }

  lemma RefreshKeys(s: State, e: nat, creds: Creds, now: int)
    requires e in s.entries
    ensures Refresh(s, e, creds, now).leaked == s.leaked && Refresh(s, e, creds, now).entries.Keys == s.entries.Keys
    ensures !SameGroups(creds, s.entries[e].started) ==> s.entries[e].user !in Refresh(s, e, creds, now).helpers
    ensures forall x | x in s.entries :: Refresh(s, e, creds, now).entries[x].idleSince == s.entries[x].idleSince
  {
  }

  lemma {:induction false} SpawnTouches(s: State, c: Config, user: string, creds: Creds, kernelOk: bool, now: int)
    requires Linked(s) && 0 < c.maxHelpers && |s.helpers| <= c.maxHelpers
    ensures var (t, r) := Spawned(s, c, user, creds, kernelOk, now);
            Touches(s, t, r)
  {
    MakeRoomKeeps(s, c, now);
    hide RoomMade, Linked;
  }

  /** The user's own entry stays as well, unless it is replaced. */
  lemma OwnEntryStays(s: State, c: Config, a: Action)
    requires Inv(s, c) && 0 < c.maxHelpers && a.DoAcquire? && Enabled(s, a) && !s.closed && a.user in s.helpers
    ensures var e, t := s.helpers[a.user], Apply(s, c, a);
            !Idle(s, e) ==> (Live(t, e) <==> !ReplacesBusy(s, a)) && e in t.entries && t.entries[e].inUse > 0
  {
    var e := s.helpers[a.user];
    if a.resolved.None? {
      ReuseKeeps(s, c, e);
    } else if SameGroups(a.resolved.value, s.entries[e].started) {
      OwnEntryIsReused(s, c, a.user, a.resolved.value, a.kernelOk, a.now);
    } else {
      OwnEntryIsReplaced(s, c, a.user, a.resolved.value, a.kernelOk, a.now);
    }
  }

  lemma OwnEntryIsReused(s: State, c: Config, user: string, creds: Creds, kernelOk: bool, now: int)
    requires Inv(s, c) && !s.closed && user in s.helpers && SameGroups(creds, s.entries[s.helpers[user]].started)
    ensures var e, t := s.helpers[user], Acquired(s, c, user, Some(creds), kernelOk, now).0;
            Live(t, e) && e in t.entries && t.entries[e].inUse > 0
  {
    hide Counted, Ended;
    var e := s.helpers[user];
    RefreshKeeps(s, e, creds, now);
    ReuseKeeps(Refresh(s, e, creds, now), c, e);
  }

  lemma OwnEntryIsReplaced(s: State, c: Config, user: string, creds: Creds, kernelOk: bool, now: int)
    requires Inv(s, c) && 0 < c.maxHelpers && !s.closed && user in s.helpers && !SameGroups(creds, s.entries[s.helpers[user]].started)
    ensures var e, t := s.helpers[user], Acquired(s, c, user, Some(creds), kernelOk, now).0;
            !Live(t, e) && e in t.entries && t.entries[e].inUse == s.entries[e].inUse
  {
    hide Spawned, Refresh, Ended;
    var e := s.helpers[user];
    RefreshKeeps(s, e, creds, now);
    RefreshKeys(s, e, creds, now);
    var s1 := Refresh(s, e, creds, now);
    assert e < s1.next;
    ReplacedIsGone(s1, c, user, creds, kernelOk, now, e);
  }

  lemma ReplacedIsGone(s: State, c: Config, user: string, creds: Creds, kernelOk: bool, now: int, e: nat)
    requires Linked(s) && Matching(s) && 0 < c.maxHelpers && |s.helpers| <= c.maxHelpers && user !in s.helpers && !s.closed
    requires e in s.entries && s.entries[e].user == user && e < s.next
    ensures var t := Spawned(s, c, user, creds, kernelOk, now).0;
            !Live(t, e) && e in t.entries && t.entries[e].inUse == s.entries[e].inUse
  {
    hide RoomMade;
    MakeRoomKeeps(s, c, now);
    SpawnTouches(s, c, user, creds, kernelOk, now);
  }

  /** Exactly two things set a helper draining: replacing a busy entry, and closing a pool that has one. */
  lemma DrainingGrowsIff(s: State, c: Config, a: Action)
    requires Inv(s, c) && 0 < c.maxHelpers && Enabled(s, a)
    ensures Draining(Apply(s, c, a)) <= Draining(s) <==> !ReplacesBusy(s, a) && !ClosesBusy(s, a)
  {
    hide Inv, Draining;
    match a
    case DoAcquire(_, _, _, _) => AcquireDrains(s, c, a);
    case DoRelease(e, now) => ReleaseDrains(s, c, e, now);
    case DoReap(now) => ReapDrains(s, c, now);
    case DoClose => CloseDrains(s, c);
  }

  lemma ReleaseDrains(s: State, c: Config, e: nat, now: int)
    requires Inv(s, c) && e in s.entries && s.entries[e].inUse > 0
    ensures Draining(Released(s, e, now)) <= Draining(s)
  {
    hide Released, Inv;
    ReleaseShape(s, e, now);
  }

  lemma ReapDrains(s: State, c: Config, now: int)
    requires Inv(s, c)
    ensures Draining(ReapAmong(s, s.lru, now - c.idleTimeout)) <= Draining(s)
  {
    ReapKeeps(s, s.lru, now - c.idleTimeout);
    hide ReapAmong, Linked, Inv;
  }

  lemma AcquireDrains(s: State, c: Config, a: Action)
    requires Inv(s, c) && 0 < c.maxHelpers && a.DoAcquire? && Enabled(s, a)
    ensures Draining(Apply(s, c, a)) <= Draining(s) <==> !ReplacesBusy(s, a)
  {
    if !s.closed {
      var t, r := Acquired(s, c, a.user, a.resolved, a.kernelOk, a.now).0, Acquired(s, c, a.user, a.resolved, a.kernelOk, a.now).1;
      AcquireKeeps(s, c, a.user, a.resolved, a.kernelOk, a.now);
      AcquireTouches(s, c, a.user, a.resolved, a.kernelOk, a.now);
      if a.user in s.helpers {
        OwnEntryStays(s, c, a);
      }
      hide Acquired, Inv;
      if !ReplacesBusy(s, a) {
        forall e | e in Draining(t) ensures e in Draining(s) {
          assert !(r.Ok? && e == r.value);
        }
      } else {
        var e := s.helpers[a.user];
        assert e in Draining(t) && e !in Draining(s);
      }
    }
  }

  lemma CloseDrains(s: State, c: Config)
    requires Inv(s, c)
    ensures Draining(AllClosed(s)) <= Draining(s) <==> !ClosesBusy(s, DoClose)
  {
    hide AllClosed, Linked;
    ClosingRetires(s);
    var t := AllClosed(s);
    if e :| Live(s, e) && !Idle(s, e) {
      assert e in Draining(t) && e !in Draining(s);
    }
  }

  /** A helper is leaked exactly by the last release of a draining one whose user has a newer helper. */
  lemma LeakedGrowsIff(s: State, c: Config, a: Action)
    requires Inv(s, c) && 0 < c.maxHelpers && Enabled(s, a)
    ensures Apply(s, c, a).leaked != s.leaked
            <==> a.DoRelease? && a.e in Draining(s) && s.entries[a.e].inUse == 1 && s.entries[a.e].user in s.helpers
  {
    match a
    case DoAcquire(user, resolved, kernelOk, now) => AcquireTouches(s, c, user, resolved, kernelOk, now);
    case DoRelease(e, now) => ReleaseLeaks(s, c, e, now);
    case DoReap(_) => ReapKeeps(s, s.lru, a.now - c.idleTimeout);
    case DoClose => ClosingRetires(s);
  }

  lemma ReleaseLeaks(s: State, c: Config, e: nat, now: int)
    requires Inv(s, c) && e in s.entries && s.entries[e].inUse > 0
    ensures Released(s, e, now).leaked != s.leaked
            <==> e in Draining(s) && s.entries[e].inUse == 1 && s.entries[e].user in s.helpers
  {
    hide Released;
    ReleaseShape(s, e, now);
    assert e in s.leaked ==> Gone(s, e);
  }

  /**
   The documented cap, with its exact guard: as long as no acquire replaces a busy entry and nobody closes
   a pool that has one, running helpers are the pool's entries and never more than maxHelpers.
   */
  lemma {:induction false} CapHoldsUnlessBusyIsReplaced(b: seq<State>, c: Config, acts: seq<Action>, n: nat)
    requires Run(b, c, acts) && n < |b|
    requires forall i | 0 <= i < n :: !ReplacesBusy(b[i], acts[i]) && !ClosesBusy(b[i], acts[i])
    ensures Draining(b[n]) == {} && b[n].leaked == {} && |Running(b[n])| == |b[n].helpers| <= c.maxHelpers
  {
    hide Apply, Enabled, Draining, Running, ReplacesBusy, ClosesBusy, Inv;
    if n == 0 {
      NothingDrainsAtFirst();
    } else {
      CapHoldsUnlessBusyIsReplaced(b, c, acts, n - 1);
      RunKeepsInv(b, c, acts, n - 1);
      DrainingGrowsIff(b[n - 1], c, acts[n - 1]);
      LeakedGrowsIff(b[n - 1], c, acts[n - 1]);
      NothingLeaksUndrained(b[n - 1], acts[n - 1]);
    }
    RunKeepsInv(b, c, acts, n);
    RunningIsPoolPlusRest(b[n], c);
  }

  lemma NothingDrainsAtFirst()
    ensures Draining(EMPTY) == {} && EMPTY.leaked == {}
  {
  }

  lemma NothingLeaksUndrained(s: State, a: Action)
    requires Draining(s) == {}
    ensures !(a.DoRelease? && a.e in Draining(s))
  {
  }

  // ------------------------------------------------------ least recently used

  /** Every earlier member of the list has the greater value. */
  ghost predicate Descends(q: seq<nat>, f: nat -> int) { forall i, j | 0 <= i < j < |q| :: f(q[i]) > f(q[j]) }

  lemma {:induction false} WithoutDescends(q: seq<nat>, x: nat, f: nat -> int)
    requires Descends(q, f)
    ensures Descends(Without(q, x), f)
  {
    if q != [] {
      WithoutDescends(q[1..], x, f);
      assert forall i | 0 <= i < |q[1..]| :: q[1..][i] == q[i + 1];
      var r := Without(q[1..], x);
      forall j | 0 <= j < |r| ensures f(q[0]) > f(r[j]) {
        assert r[j] in q[1..];
      }
    }
  }

  lemma FrontDescends(q: seq<nat>, e: nat, f: nat -> int, g: nat -> int)
    requires Descends(q, f) && forall x | x in q && x != e :: g(x) == f(x) && g(e) > f(x)
    ensures Descends([e] + Without(q, e), g)
  {
    WithoutDescends(q, e, f);
    var r := Without(q, e);
    hide Without;
    forall i, j | 0 <= i < j < |[e] + r| ensures g(([e] + r)[i]) > g(([e] + r)[j]) {
      assert r[j - 1] in q && r[j - 1] != e;
      if i > 0 {
        assert r[i - 1] in q && r[i - 1] != e && f(r[i - 1]) > f(r[j - 1]);
      }
    }
  }

  lemma {:induction false} ReapDescends(s: State, todo: seq<nat>, cutoff: int, f: nat -> int)
    requires Descends(s.lru, f)
    ensures Descends(ReapAmong(s, todo, cutoff).lru, f)
    decreases |todo|
  {
    if todo != [] {
      var e := todo[|todo| - 1];
      WithoutDescends(s.lru, e, f);
      ReapDescends(ReapOne(s, e, cutoff), todo[..|todo| - 1], cutoff, f);
    }
  }

  lemma {:induction false} RetireAllDescends(s: State, todo: seq<nat>, f: nat -> int)
    requires Descends(s.lru, f)
    ensures Descends(RetireAll(s, todo).lru, f)
    decreases |todo|
  {
    if todo != [] {
      var e := todo[|todo| - 1];
      WithoutDescends(s.lru, e, f);
      RetireAllDescends(if e in s.entries then Retired(s, e) else s, todo[..|todo| - 1], f);
    }
  }

  /** The idle entry nearest the old end is the one with the least value. */
  lemma {:induction false} LruIdleIsLeast(s: State, q: seq<nat>, f: nat -> int)
    requires Descends(q, f) && LruIdle(s, q).Some?
    ensures forall x | x in q && Idle(s, x) && x != LruIdle(s, q).value :: f(x) > f(LruIdle(s, q).value)
  {
    var n := |q| - 1;
    assert q == q[..n] + [q[n]];
    if !Idle(s, q[n]) {
      LruIdleIsLeast(s, q[..n], f);
    }
  }

  /** Eviction takes idle entries of less value than every idle one it leaves. */
  lemma {:induction false} EvictTakesTheLeast(s: State, max: nat, f: nat -> int)
    requires Linked(s) && Descends(s.lru, f)
    ensures var t := Evict(s, max).0;
            && Descends(t.lru, f) && t.entries == s.entries
            && (forall x | Live(t, x) :: Live(s, x))
            && forall x, y | Live(s, x) && !Live(t, x) && Live(t, y) && Idle(s, y) :: f(x) < f(y)
    decreases |s.lru|
  {
    var r := LruIdle(s, s.lru);
    if |s.helpers| >= max && r.Some? {
      RetireKeeps(s, r.value);
      WithoutDescends(s.lru, r.value, f);
      LruIdleIsLeast(s, s.lru, f);
      hide Linked, LruIdle;
      EvictOnce(s, r.value, f);
      EvictTakesTheLeast(Retired(s, r.value), max, f);
    }
  }

  lemma EvictOnce(s: State, v: nat, f: nat -> int)
    requires Linked(s) && Live(s, v) && forall x | x in s.lru && Idle(s, x) && x != v :: f(x) > f(v)
    ensures forall y | Live(Retired(s, v), y) && Idle(s, y) :: f(y) > f(v)
  {
    RetireIndexed(s, v);
  }

  lemma ReapLeaves(s: State, cutoff: int)
    requires Linked(s)
    ensures var t := ReapAmong(s, s.lru, cutoff);
            && Linked(t) && t.entries == s.entries && forall x :: Live(t, x) <==> Live(s, x) && !Lapsed(s, x, cutoff)
  {
    ReapKeeps(s, s.lru, cutoff);
  }

  lemma RoomDescends(s: State, c: Config, now: int, f: nat -> int)
    requires Linked(s) && Descends(s.lru, f)
    ensures var t := RoomMade(s, c, now).0;
            && Descends(t.lru, f) && t.entries == s.entries
            && forall x, y | Live(s, x) && !Lapsed(s, x, now - c.idleTimeout) && !Live(t, x) && Live(t, y) && Idle(s, y) :: f(x) < f(y)
  {
    hide Linked, ReapAmong, Evict, Live, Descends;
    ReapLeaves(s, now - c.idleTimeout);
    ReapDescends(s, s.lru, now - c.idleTimeout, f);
    EvictTakesTheLeast(ReapAmong(s, s.lru, now - c.idleTimeout), c.maxHelpers, f);
  }

  /** From f to g the value of the entry granted rises above all of the list, and no other changes. */
  ghost predicate Bumped(q: seq<nat>, f: nat -> int, g: nat -> int, r: Result<nat, PoolError>) {
    (forall x: nat :: r != Ok(x) ==> g(x) == f(x)) && (r.Ok? ==> forall x | x in q :: g(r.value) > f(x))
  }

  /** What an acquire does to the list: some members go, and the entry granted comes to the front. */
  lemma AcquireDescends(s: State, c: Config, user: string, resolved: Option<Creds>, kernelOk: bool, now: int, f: nat -> int, g: nat -> int)
    requires Inv(s, c) && 0 < c.maxHelpers && Descends(s.lru, f)
    requires Bumped(s.lru, f, g, Acquired(s, c, user, resolved, kernelOk, now).1)
    ensures Descends(Acquired(s, c, user, resolved, kernelOk, now).0.lru, g)
  {
    hide Spawned, SameGroups, Refresh, Counted, Ended, Without;
    if !s.closed {
      if user !in s.helpers {
        SpawnDescends(s, c, user, if resolved.Some? then resolved.value else NO_CREDS, kernelOk, now, f, g);
      } else {
        var e := s.helpers[user];
        if resolved.None? {
          FrontDescends(s.lru, e, f, g);
        } else {
          RefreshDescends(s, e, resolved.value, now, f);
          var s1 := Refresh(s, e, resolved.value, now);
          if SameGroups(resolved.value, s.entries[e].started) {
            FrontDescends(s1.lru, e, f, g);
          } else {
            RefreshKeeps(s, e, resolved.value, now);
            SpawnDescends(s1, c, user, resolved.value, kernelOk, now, f, g);
          }
        }
      }
    }
  }

  lemma RefreshDescends(s: State, e: nat, creds: Creds, now: int, f: nat -> int)
    requires e in s.entries && Descends(s.lru, f)
    ensures Descends(Refresh(s, e, creds, now).lru, f) && forall x | x in Refresh(s, e, creds, now).lru :: x in s.lru
  {
    WithoutDescends(s.lru, e, f);
  }

  lemma SpawnDescends(s: State, c: Config, user: string, creds: Creds, kernelOk: bool, now: int, f: nat -> int, g: nat -> int)
    requires Linked(s) && 0 < c.maxHelpers && |s.helpers| <= c.maxHelpers && Descends(s.lru, f)
    requires Bumped(s.lru, f, g, Spawned(s, c, user, creds, kernelOk, now).1)
    ensures Descends(Spawned(s, c, user, creds, kernelOk, now).0.lru, g)
  {
    hide RoomMade, Linked, Descends, Trimmed;
    MakeRoomKeeps(s, c, now);
    RoomDescends(s, c, now, f);
    var (s1, room) := RoomMade(s, c, now);
    RoomMembers(s, s1);
    if room && SpawnOk(creds, kernelOk) {
      assert Without([s1.next] + s1.lru, s1.next) == Without(s1.lru, s1.next);
      FrontDescends(s1.lru, s1.next, f, g);
    } else {
      SameOrder(s1.lru, f, g);
    }
  }

  lemma SameOrder(q: seq<nat>, f: nat -> int, g: nat -> int)
    requires Descends(q, f) && forall x :: g(x) == f(x)
    ensures Descends(q, g)
  {
  }

  lemma RoomMembers(s: State, t: State)
    requires Linked(s) && Linked(t) && Trimmed(s, t)
    ensures forall x | x in t.lru :: x in s.lru
  {
  }

  ghost predicate Grants(s: State, c: Config, a: Action, e: nat)
    requires Enabled(s, a)
  {
    a.DoAcquire? && Acquired(s, c, a.user, a.resolved, a.kernelOk, a.now).1 == Ok(e)
  }

  /** The step of the last acquire before step n that was granted the entry; -1 if there was none. */
  ghost function LastUse(b: seq<State>, c: Config, acts: seq<Action>, n: nat, e: nat): (r: int)
    requires Run(b, c, acts) && n < |b|
    ensures -1 <= r < n
    ensures 0 <= r ==> Grants(b[r], c, acts[r], e)
    ensures forall i | r < i < n :: !Grants(b[i], c, acts[i], e)
  {
    if n == 0 then -1
    else if Grants(b[n - 1], c, acts[n - 1], e) then n - 1
    else LastUse(b, c, acts, n - 1, e)
  }

  ghost function UsedAt(b: seq<State>, c: Config, acts: seq<Action>, n: nat): nat -> int
    requires Run(b, c, acts) && n < |b|
  {
    (e: nat) => LastUse(b, c, acts, n, e)
  }

  lemma StepDescends(s: State, c: Config, a: Action, f: nat -> int, g: nat -> int)
    requires Inv(s, c) && 0 < c.maxHelpers && Enabled(s, a) && Descends(s.lru, f)
    requires Bumped(s.lru, f, g, if a.DoAcquire? then Acquired(s, c, a.user, a.resolved, a.kernelOk, a.now).1 else Err(Closed))
    ensures Descends(Apply(s, c, a).lru, g)
  {
    hide Inv, Acquired, Released, ReapAmong, RetireAll, Descends;
    match a
    case DoAcquire(user, resolved, kernelOk, now) => AcquireDescends(s, c, user, resolved, kernelOk, now, f, g);
    case DoRelease(e, now) =>
      ReleaseShape(s, e, now);
      SameOrder(s.lru, f, g);
    case DoReap(now) =>
      ReapDescends(s, s.lru, now - c.idleTimeout, f);
      SameOrder(Apply(s, c, a).lru, f, g);
    case DoClose =>
      RetireAllDescends(s.(closed := true), s.lru, f);
      SameOrder(Apply(s, c, a).lru, f, g);
  }

  lemma UseBumps(b: seq<State>, c: Config, acts: seq<Action>, n: nat)
    requires Run(b, c, acts) && 0 < n < |b| && Enabled(b[n - 1], acts[n - 1])
    ensures var s, a := b[n - 1], acts[n - 1];
            Bumped(s.lru, UsedAt(b, c, acts, n - 1), UsedAt(b, c, acts, n),
                   if a.DoAcquire? then Acquired(s, c, a.user, a.resolved, a.kernelOk, a.now).1 else Err(Closed))
  {
    hide Acquired, Apply;
  }

  lemma EmptyDescends(f: nat -> int)
    ensures Descends([], f)
  {
  }

  /** Over every run the list is in the order of last use, the most recently granted entry first. */
  lemma {:induction false} ListIsByLastUse(b: seq<State>, c: Config, acts: seq<Action>, n: nat)
    requires Run(b, c, acts) && n < |b|
    ensures Descends(b[n].lru, UsedAt(b, c, acts, n))
  {
    hide Inv, Enabled, Apply, Descends, Acquired;
    if n == 0 {
      EmptyDescends(UsedAt(b, c, acts, 0));
    } else {
      ListIsByLastUse(b, c, acts, n - 1);
      RunKeepsInv(b, c, acts, n - 1);
      UseBumps(b, c, acts, n);
      StepDescends(b[n - 1], c, acts[n - 1], UsedAt(b, c, acts, n - 1), UsedAt(b, c, acts, n));
    }
  }

  /**
   What makes room is the least recently used: an entry that another user's acquire takes out of the pool, and whose idle
   time was not up, was granted last before every idle entry that stays.
   */
  lemma EvictedIsLeastRecentlyUsed(b: seq<State>, c: Config, acts: seq<Action>, n: nat, x: nat, y: nat)
    requires Run(b, c, acts) && n < |acts| && acts[n].DoAcquire? && Live(b[n], x) && Live(b[n], y)
    requires b[n].entries[x].user != acts[n].user && !Lapsed(b[n], x, acts[n].now - c.idleTimeout)
    requires !Live(b[n + 1], x) && Live(b[n + 1], y) && Idle(b[n], y)
    ensures LastUse(b, c, acts, n, x) < LastUse(b, c, acts, n, y)
  {
    RunKeepsInv(b, c, acts, n);
    ListIsByLastUse(b, c, acts, n);
    var a := acts[n];
    hide Inv, Enabled, LastUse;
    assert b[n + 1] == Apply(b[n], c, a) == Acquired(b[n], c, a.user, a.resolved, a.kernelOk, a.now).0;
    AcquireEvicts(b[n], c, a.user, a.resolved, a.kernelOk, a.now, UsedAt(b, c, acts, n), x, y);
  }

  lemma AcquireEvicts(s: State, c: Config, user: string, resolved: Option<Creds>, kernelOk: bool, now: int, f: nat -> int, x: nat, y: nat)
    requires Inv(s, c) && 0 < c.maxHelpers && Descends(s.lru, f) && Live(s, x) && Live(s, y) && Idle(s, y)
    requires s.entries[x].user != user && !Lapsed(s, x, now - c.idleTimeout)
    requires var t := Acquired(s, c, user, resolved, kernelOk, now).0; !Live(t, x) && Live(t, y)
    ensures f(x) < f(y)
  {
    hide Spawned, SameGroups, Descends, Refresh, CheckedOut;
    if user !in s.helpers {
      SpawnEvicts(s, c, user, if resolved.Some? then resolved.value else NO_CREDS, kernelOk, now, f, x, y);
    } else if resolved.None? {
      ReuseKeeps(s, c, s.helpers[user]);
    } else {
      RefreshEvicts(s, c, user, resolved.value, kernelOk, now, f, x, y);
    }
  }

  lemma RefreshEvicts(s: State, c: Config, user: string, creds: Creds, kernelOk: bool, now: int, f: nat -> int, x: nat, y: nat)
    requires Inv(s, c) && 0 < c.maxHelpers && Descends(s.lru, f) && Live(s, x) && Live(s, y) && Idle(s, y) && !s.closed && user in s.helpers
    requires s.entries[x].user != user && !Lapsed(s, x, now - c.idleTimeout)
    requires var t := Acquired(s, c, user, Some(creds), kernelOk, now).0; !Live(t, x) && Live(t, y)
    ensures f(x) < f(y)
  {
    hide Spawned, Descends, Refresh, CheckedOut, Counted, Ended, Matching;
    var e := s.helpers[user];
    var s1 := Refresh(s, e, creds, now);
    RefreshKeeps(s, e, creds, now);
    RefreshKeys(s, e, creds, now);
    RefreshDescends(s, e, creds, now, f);
    if SameGroups(creds, s.entries[e].started) {
      ReuseKeeps(s1, c, e);
    } else {
      SpawnEvicts(s1, c, user, creds, kernelOk, now, f, x, y);
    }
  }

  lemma StillWithout(s: State, t: State, user: string)
    requires Linked(s) && Linked(t) && Trimmed(s, t) && user !in s.helpers
    ensures user !in t.helpers
  {
    assert user in t.helpers ==> Live(t, t.helpers[user]);
  }

  lemma SpawnEvicts(s: State, c: Config, user: string, creds: Creds, kernelOk: bool, now: int, f: nat -> int, x: nat, y: nat)
    requires Linked(s) && 0 < c.maxHelpers && |s.helpers| <= c.maxHelpers && user !in s.helpers && Descends(s.lru, f)
    requires Live(s, x) && x in s.entries && y in s.entries && Idle(s, y) && !Lapsed(s, x, now - c.idleTimeout)
    requires var t := Spawned(s, c, user, creds, kernelOk, now).0; !Live(t, x) && Live(t, y)
    ensures f(x) < f(y)
  {
    hide RoomMade, Descends;
    MakeRoomKeeps(s, c, now);
    RoomDescends(s, c, now, f);
    var (s1, room) := RoomMade(s, c, now);
    StillWithout(s, s1, user);
    if room && SpawnOk(creds, kernelOk) {
      assert x < s.next && y < s.next;
      StartLive(s1, user, creds, now);
    }
  }

  lemma StartLive(s: State, user: string, creds: Creds, now: int)
    requires Indexed(s) && Counted(s) && user !in s.helpers
    ensures forall x :: Live(Start(s, user, creds, now), x) <==> Live(s, x) || x == s.next
  {
    AddedLive(s, user, creds, now);
    var u := Added(s, user, creds, now);
    forall x ensures Live(Start(s, user, creds, now), x) <==> Live(u, x) {
    }
  }

  // ------------------------------------------------- idle time and credentials

  /** When the entry was last given back. */
  ghost function LastRelease(acts: seq<Action>, n: nat, e: nat): Option<int>
    requires n <= |acts|
  {
    if n == 0 then None
    else if acts[n - 1].DoRelease? && acts[n - 1].e == e then Some(acts[n - 1].now)
    else LastRelease(acts, n - 1, e)
  }

  /** An entry nobody uses has been idle since it was last given back, so what is reaped has been idle for idleTimeout. */
  lemma {:induction false} IdleSinceTheLastRelease(b: seq<State>, c: Config, acts: seq<Action>, n: nat, e: nat)
    requires Run(b, c, acts) && n < |b| && Idle(b[n], e)
    ensures LastRelease(acts, n, e) == Some(b[n].entries[e].idleSince)
  {
    hide Inv, Enabled, Apply;
    if n > 0 {
      RunKeepsInv(b, c, acts, n - 1);
      IdleMoves(b[n - 1], c, acts[n - 1], e);
      if !(acts[n - 1].DoRelease? && acts[n - 1].e == e) {
        IdleSinceTheLastRelease(b, c, acts, n - 1, e);
      }
    }
  }

  /** A reap takes exactly the idle entries given back more than idleTimeout ago. */
  lemma ReapTakesTheLongIdle(b: seq<State>, c: Config, acts: seq<Action>, n: nat, e: nat)
    requires Run(b, c, acts) && n < |acts| && acts[n].DoReap? && Live(b[n], e)
    ensures !Live(b[n + 1], e) <==>
              Idle(b[n], e) && LastRelease(acts, n, e).Some? && acts[n].now - LastRelease(acts, n, e).value > c.idleTimeout
  {
    hide Inv, LastRelease, ReapAmong, Live, Enabled;
    RunKeepsInv(b, c, acts, n);
    assert Enabled(b[n], acts[n]) && b[n + 1] == Apply(b[n], c, acts[n]);
    ReapLive(b[n], c, acts[n].now, e);
    if Idle(b[n], e) {
      IdleSinceTheLastRelease(b, c, acts, n, e);
    }
  }

  lemma ReapLive(s: State, c: Config, now: int, e: nat)
    requires Inv(s, c) && Live(s, e)
    ensures !Live(ReapAmong(s, s.lru, now - c.idleTimeout), e) <==>
              Idle(s, e) && now - s.entries[e].idleSince > c.idleTimeout
  {
    ReapLeaves(s, now - c.idleTimeout);
  }

  lemma IdleMoves(s: State, c: Config, a: Action, e: nat)
    requires Inv(s, c) && 0 < c.maxHelpers && Enabled(s, a) && Idle(Apply(s, c, a), e)
    ensures var t := Apply(s, c, a);
            if a.DoRelease? && a.e == e then t.entries[e].idleSince == a.now
            else Idle(s, e) && t.entries[e].idleSince == s.entries[e].idleSince
  {
    hide Inv, Acquired, Released, ReapAmong, AllClosed;
    match a
    case DoAcquire(user, resolved, kernelOk, now) => AcquireIdles(s, c, user, resolved, kernelOk, now);
    case DoRelease(_, now) => ReleaseIdles(s, a.e, now);
    case DoReap(now) => ReapIdles(s, c, now);
    case DoClose => CloseIdles(s, c);
  }

  lemma AcquireIdles(s: State, c: Config, user: string, resolved: Option<Creds>, kernelOk: bool, now: int)
    requires Inv(s, c) && 0 < c.maxHelpers
    ensures var t := Acquired(s, c, user, resolved, kernelOk, now).0;
            forall e | Idle(t, e) :: Idle(s, e) && t.entries[e].idleSince == s.entries[e].idleSince
  {
    hide Inv, Acquired;
    AcquireKeeps(s, c, user, resolved, kernelOk, now);
    AcquireTouches(s, c, user, resolved, kernelOk, now);
  }

  lemma ReapIdles(s: State, c: Config, now: int)
    requires Inv(s, c)
    ensures ReapAmong(s, s.lru, now - c.idleTimeout).entries == s.entries
  {
    ReapLeaves(s, now - c.idleTimeout);
  }

  lemma CloseIdles(s: State, c: Config)
    requires Inv(s, c)
    ensures AllClosed(s).entries == s.entries
  {
    ClosingRetires(s);
  }

  lemma ReleaseIdles(s: State, e: nat, now: int)
    requires e in s.entries && s.entries[e].inUse > 0
    ensures var t := Released(s, e, now);
            && t.entries == s.entries[e := t.entries[e]]
            && (t.entries[e].inUse == 0 ==> t.entries[e].idleSince == now)
  {
  }

  // ------------------------------------------------- when an acquire succeeds

  lemma {:induction false} SmallerPool(s: State, t: State, x: nat)
    requires Indexed(s) && Indexed(t) && t.entries == s.entries && (forall y | Live(t, y) :: Live(s, y)) && Live(s, x) && !Live(t, x)
    ensures |t.helpers| < |s.helpers|
  {
    InPoolCount(s);
    InPoolCount(t);
    SmallerSet(InPool(t), InPool(s), x);
  }

  lemma {:induction false} SmallerSet(a: set<nat>, b: set<nat>, x: nat)
    requires a <= b && x in b && x !in a
    ensures |a| < |b|
  {
    if a != {} {
      var y :| y in a;
      SmallerSet(a - {y}, b - {y}, x);
    } else {
      assert |b| > 0 by {
        assert b != {};
      }
    }
  }

  /** There is room exactly if the pool is not full or somebody in it is idle. */
  lemma RoomIffNotAllBusy(s: State, c: Config, now: int)
    requires Linked(s) && 0 < c.maxHelpers && |s.helpers| <= c.maxHelpers
    ensures RoomMade(s, c, now).1 <==> |s.helpers| < c.maxHelpers || exists x :: Live(s, x) && Idle(s, x)
  {
    hide RoomMade;
    MakeRoomKeeps(s, c, now);
    var (t, ok) := RoomMade(s, c, now);
    if !ok {
      forall x | Live(s, x) ensures !Idle(s, x) {
        if !Live(t, x) {
          SmallerPool(s, t, x);
          assert false;
        }
      }
    } else if |s.helpers| == c.maxHelpers {
      InPoolCount(s);
      InPoolCount(t);
      assert InPool(s) != InPool(t);
      assert exists x :: Live(s, x) && !Live(t, x);
    }
  }

  /** The user's entry serves again: it is there, and no lookup has found other groups. */
  predicate OwnServes(s: State, user: string, resolved: Option<Creds>) {
    user in s.helpers && s.helpers[user] in s.entries
    && (resolved.Some? ==> SameGroups(resolved.value, s.entries[s.helpers[user]].started))
  }

  /** The other users' entries leave room, or one of them is idle. */
  ghost predicate RoomBeside(s: State, c: Config, user: string) {
    |s.helpers - {user}| < c.maxHelpers || exists x :: Live(s, x) && Idle(s, x) && s.entries[x].user != user
  }

  /** Exactly when an acquire succeeds, and otherwise why not. */
  lemma AcquireSucceedsIff(s: State, c: Config, user: string, resolved: Option<Creds>, kernelOk: bool, now: int)
    requires Inv(s, c) && 0 < c.maxHelpers
    ensures var r := Acquired(s, c, user, resolved, kernelOk, now).1;
            var creds := if resolved.Some? then resolved.value else NO_CREDS;
            && (r == Err(Closed) <==> s.closed)
            && (r == Err(AllBusy) <==> !s.closed && !OwnServes(s, user, resolved) && !RoomBeside(s, c, user))
            && (r == Err(SpawnFailed) <==> !s.closed && !OwnServes(s, user, resolved) && RoomBeside(s, c, user) && !SpawnOk(creds, kernelOk))
            && (r.Ok? <==> !s.closed && (OwnServes(s, user, resolved) || (RoomBeside(s, c, user) && SpawnOk(creds, kernelOk))))
  {
    hide RoomMade, Refresh, CheckedOut, Start, SameGroups, Ended;
    if !s.closed && !OwnServes(s, user, resolved) {
      if user in s.helpers {
        var e := s.helpers[user];
        RefreshKeeps(s, e, resolved.value, now);
        RefreshLeavesOthers(s, e, resolved.value, now);
        RoomIffNotAllBusy(Refresh(s, e, resolved.value, now), c, now);
        SameRoomBeside(s, Refresh(s, e, resolved.value, now), c, user);
      } else {
        RoomIffNotAllBusy(s, c, now);
        assert s.helpers - {user} == s.helpers;
        assert forall x | Live(s, x) :: s.entries[x].user != user;
      }
    }
  }

  lemma RefreshLeavesOthers(s: State, e: nat, creds: Creds, now: int)
    requires Live(s, e) && !SameGroups(creds, s.entries[e].started)
    ensures Refresh(s, e, creds, now).helpers == s.helpers - {s.entries[e].user}
  {
  }

  lemma SameRoomBeside(s: State, t: State, c: Config, user: string)
    requires user in s.helpers && Live(s, s.helpers[user]) && s.entries[s.helpers[user]].user == user && t.helpers == s.helpers - {user}
    requires forall x :: Live(t, x) <==> Live(s, x) && x != s.helpers[user]
    requires forall x | x in s.entries :: x in t.entries && t.entries[x].inUse == s.entries[x].inUse
    ensures RoomBeside(s, c, user) <==> |t.helpers| < c.maxHelpers || exists x :: Live(t, x) && Idle(t, x)
  {
    forall x | Live(s, x) ensures s.entries[x].user != user <==> x != s.helpers[user] {
    }
    if x :| Live(t, x) && Idle(t, x) {
      assert Live(s, x) && Idle(s, x) && s.entries[x].user != user;
    }
    if x :| Live(s, x) && Idle(s, x) && s.entries[x].user != user {
      assert Live(t, x) && Idle(t, x);
    }
  }

  /** A successful lookup is remembered with the entry granted, and asked again exactly once credsTTL has passed. */
  lemma {:induction false} LookupIsGoodForTTL(s: State, c: Config, user: string, creds: Creds, kernelOk: bool, now: int, later: int)
    requires Inv(s, c) && 0 < c.maxHelpers && Acquired(s, c, user, Some(creds), kernelOk, now).1.Ok?
    ensures var (t, r) := Acquired(s, c, user, Some(creds), kernelOk, now);
            && user in t.helpers && t.helpers[user] == r.value && r.value in t.entries && t.entries[r.value].creds == creds
            && t.entries[r.value].started.gid == creds.gid && t.entries[r.value].started.groups == creds.groups
            && (NeedsCreds(t, c, user, later) <==> later - now >= c.credsTTL)
  {
    hide RoomMade;
    if user !in s.helpers {
      SpawnedEntry(s, c, user, creds, kernelOk, now);
    } else {
      var e := s.helpers[user];
      RefreshKeeps(s, e, creds, now);
      if !SameGroups(creds, s.entries[e].started) {
        SpawnedEntry(Refresh(s, e, creds, now), c, user, creds, kernelOk, now);
      }
    }
  }

  // Two lookups for one user may finish in the other order.

  /**
   A lookup made before a membership was removed can reach the second section last: it then replaces the helper
   started without the membership, and until credsTTL has passed the user is not looked up again and is
   granted a helper started with the old groups.
   */
  lemma {:induction false} OlderLookupReplacesNewerHelper(s: State, c: Config, user: string, stale: Creds, kernelOk: bool, now: int, later: int)
    requires Inv(s, c) && 0 < c.maxHelpers && !s.closed && user in s.helpers && now <= later < now + c.credsTTL
    requires !SameGroups(stale, s.entries[s.helpers[user]].started)
    requires Acquired(s, c, user, Some(stale), kernelOk, now).1.Ok?
    ensures var (t, r) := Acquired(s, c, user, Some(stale), kernelOk, now);
            user in t.helpers && t.helpers[user] == r.value && r.value in t.entries
            && !NeedsCreds(t, c, user, later)
            && Acquired(t, c, user, None, kernelOk, later).1 == Ok(r.value)
            && t.entries[r.value].started == stale
  {
    hide RoomMade, Start;
    var e := s.helpers[user];
    RefreshKeeps(s, e, stale, now);
    SpawnedEntry(Refresh(s, e, stale, now), c, user, stale, kernelOk, now);
  }

  lemma {:induction false} SpawnedEntry(s: State, c: Config, user: string, creds: Creds, kernelOk: bool, now: int)
    requires Linked(s) && 0 < c.maxHelpers && |s.helpers| <= c.maxHelpers && Spawned(s, c, user, creds, kernelOk, now).1.Ok?
    ensures var (t, r) := Spawned(s, c, user, creds, kernelOk, now);
            t.closed == s.closed && user in t.helpers && t.helpers[user] == r.value && r.value in t.entries
            && t.entries[r.value].started == creds && t.entries[r.value].credsAt == now && t.entries[r.value].creds == creds
  {
    MakeRoomKeeps(s, c, now);
    hide RoomMade, Linked;
  }

  const ONE_HELPER := Config(1, 300, 30)
  const OLD_GROUPS := Creds(7, 7, [7])
  const NEW_GROUPS := Creds(7, 7, [7, 9])
  const FIRST := Entry("ann", OLD_GROUPS, 1, 0, OLD_GROUPS, 0)
  const SECOND := Entry("ann", NEW_GROUPS, 1, 0, NEW_GROUPS, 40)

  function AfterFirst(): State { State(map["ann" := 0], [0], map[0 := FIRST], 1, false, [], multiset{0}, {}) }

  function AfterRefresh(): State {
    State(map[], [], map[0 := FIRST.(creds := NEW_GROUPS, credsAt := 40)], 1, false, [], multiset{0}, {})
  }

  function AfterSecond(): State {
    State(map["ann" := 1], [1], map[0 := FIRST.(creds := NEW_GROUPS, credsAt := 40), 1 := SECOND], 2, false, [],
          multiset{0} + multiset{1}, {})
  }

  lemma FirstRequest()
    ensures Apply(EMPTY, ONE_HELPER, DoAcquire("ann", Some(OLD_GROUPS), true, 0)) == AfterFirst()
  {
    assert ReapAmong(EMPTY, [], -300) == EMPTY && Evict(EMPTY, 1) == (EMPTY, true);
    var u := Added(EMPTY, "ann", OLD_GROUPS, 0);
    assert Without([0], 0) == [];
    assert CheckedOut(u, 0) == AfterFirst();
  }

  lemma GroupsChanged()
    ensures Refresh(AfterFirst(), 0, NEW_GROUPS, 40) == AfterRefresh()
  {
    assert |OLD_GROUPS.groups| != |NEW_GROUPS.groups|;
    assert Without([0], 0) == [];
    assert map["ann" := 0] - {"ann"} == map[];
  }

  lemma SecondRequest()
    ensures Apply(AfterFirst(), ONE_HELPER, DoAcquire("ann", Some(NEW_GROUPS), true, 40)) == AfterSecond()
  {
    assert |OLD_GROUPS.groups| != |NEW_GROUPS.groups|;
    GroupsChanged();
    var s := AfterRefresh();
    assert ReapAmong(s, [], -260) == s && Evict(s, 1) == (s, true);
    var u := Added(s, "ann", NEW_GROUPS, 40);
    assert Without([1], 1) == [];
    assert CheckedOut(u, 1) == AfterSecond();
  }

  /**
   The documented cap on running helpers does not hold: a user whose groups change
   during a request has two helpers under a cap of one, and when that request ends
   after the new helper started, nobody stops the old one.
   */
  lemma CapIsNotOnProcesses() returns (b: seq<State>, acts: seq<Action>)
    ensures Run(b, ONE_HELPER, acts) && |b| == 4 && ONE_HELPER.maxHelpers == 1
    ensures Running(b[2]) == {0, 1} && |b[2].helpers| == 1
    ensures Running(b[3]) == {0, 1} && b[3].leaked == {0} && b[3].stopped == []
  {
    hide Acquired;
    FirstRequest();
    SecondRequest();
    acts := [DoAcquire("ann", Some(OLD_GROUPS), true, 0), DoAcquire("ann", Some(NEW_GROUPS), true, 40), DoRelease(0, 50)];
    assert 0 in AfterSecond().held;
    b := [EMPTY, AfterFirst(), AfterSecond(), Apply(AfterSecond(), ONE_HELPER, DoRelease(0, 50))];
  }

  /** When the last request of a retired entry ends, its helper is stopped exactly if the user has no newer one. */
  lemma LastRequestStopsIffNotReplaced(s: State, c: Config, e: nat, now: int)
    requires Inv(s, c) && e in s.held && !Live(s, e) && s.held[e] == 1
    ensures e in s.entries && s.entries[e].inUse == 1
    ensures e in Released(s, e, now).stopped <==> s.entries[e].user !in s.helpers
  {
    assert Counted(s) && s.entries[e].inUse == 1;
    assert !Gone(s, e) && e !in s.stopped;
  }

  // -------------------------------------------------------------- the object

  /**
   The pool itself.  Every method is one critical section; `Contents` is the state the
   runs above are about, and the ghost fields are the history they need.
   */
  class Pool {
    const cfg: Config
    var helpers: map<string, nat>
    var lru: seq<nat>
    var entries: map<nat, Entry>
    var next: nat
    var closed: bool
    var stopped: seq<nat>
    ghost var held: multiset<nat>
    ghost var leaked: set<nat>

    ghost function Contents(): State
      reads this
    {
      State(helpers, lru, entries, next, closed, stopped, held, leaked)
    }

    constructor (cfg: Config)
      requires 0 < cfg.maxHelpers
      ensures this.cfg == cfg && Contents() == EMPTY
    {
      this.cfg := cfg;
      helpers, lru, entries, next, closed, stopped := map[], [], map[], 0, false, [];
      held, leaked := multiset{}, {};
    }

    method Checkout(e: nat)
      requires e in entries
      modifies this
      ensures Contents() == CheckedOut(old(Contents()), e)
    {
      entries := entries[e := entries[e].(inUse := entries[e].inUse + 1)];
      lru := [e] + Without(lru, e);
      held := held + multiset{e};
    }

    method Retire(e: nat)
      requires e in entries
      modifies this
      ensures Contents() == Retired(old(Contents()), e)
    {
      helpers := helpers - {entries[e].user};
      lru := Without(lru, e);
      if entries[e].inUse == 0 {
        stopped := stopped + [e];
      }
    }

    method Release(e: nat, now: int)
      requires e in entries && entries[e].inUse > 0
      modifies this
      ensures Contents() == Released(old(Contents()), e, now)
    {
      var x := entries[e];
      x := x.(inUse := x.inUse - 1);
      if x.inUse == 0 {
        x := x.(idleSince := now);
        if x.user !in helpers {
          stopped := stopped + [e];
        } else if helpers[x.user] != e {
          leaked := leaked + {e};
        }
      }
      entries := entries[e := x];
      held := held - multiset{e};
    }

    /** The scan from the back of the list for an entry with nothing in flight. */
    method FindIdle() returns (r: Option<nat>)
      ensures r == LruIdle(Contents(), lru)
    {
      var i := |lru|;
      assert lru[..i] == lru;
      while i > 0
        invariant 0 <= i <= |lru|
        invariant LruIdle(Contents(), lru) == LruIdle(Contents(), lru[..i])
      {
        i := i - 1;
        assert lru[..i + 1][..i] == lru[..i];
        if lru[i] in entries && entries[lru[i]].inUse == 0 {
          return Some(lru[i]);
        }
      }
      return None;
    }

    method ReapLocked(cutoff: int)
      requires NoDup(lru)
      modifies this
      ensures Contents() == ReapAmong(old(Contents()), old(lru), cutoff)
    {
      var i := |lru|;
      assert lru[..i] == lru;
      while i > 0
        invariant 0 <= i <= |lru| && NoDup(lru)
        invariant ReapAmong(Contents(), lru[..i], cutoff) == ReapAmong(old(Contents()), old(lru), cutoff)
      {
        i := i - 1;
        var e := lru[i];
        ghost var before := lru;
        assert lru[..i + 1][..i] == lru[..i];
        if e in entries && entries[e].inUse == 0 && entries[e].idleSince < cutoff {
          WithoutAt(lru, i);
          Retire(e);
        }
        assert lru[..i] == before[..i];
      }
    }

    method MakeRoom(now: int) returns (ok: bool)
      requires Linked(Contents())
      modifies this
      ensures (Contents(), ok) == RoomMade(old(Contents()), cfg, now)
    {
      ReapKeeps(Contents(), lru, now - cfg.idleTimeout);
      ReapLocked(now - cfg.idleTimeout);
      while |helpers| >= cfg.maxHelpers
        invariant Linked(Contents())
        invariant Evict(Contents(), cfg.maxHelpers) == RoomMade(old(Contents()), cfg, now)
        decreases |lru|
      {
        hide Linked;
        var victim := FindIdle();
        if victim.None? {
          return false;
        }
        RetireKeeps(Contents(), victim.value);
        Retire(victim.value);
      }
      return true;
    }

    /** The second critical section of acquire. */
    method Acquire(user: string, resolved: Option<Creds>, kernelOk: bool, now: int) returns (r: Result<nat, PoolError>)
      requires Linked(Contents())
      modifies this
      ensures user in old(helpers) ==> old(helpers)[user] in old(entries)
      ensures (Contents(), r) == Acquired(old(Contents()), cfg, user, resolved, kernelOk, now)
    {
      if closed {
        return Err(Closed);
      }
      if user in helpers {
        var e := helpers[user];
        if resolved.None? {
          Checkout(e);
          return Ok(e);
        }
        ghost var x := entries[e].(creds := resolved.value, credsAt := now);
        UpdateKeeps(Contents(), e, x);
        entries := entries[e := entries[e].(creds := resolved.value, credsAt := now)];
        if SameGroups(resolved.value, entries[e].started) {
          Checkout(e);
          return Ok(e);
        }
        RetireKeeps(Contents(), e);
        Retire(e);
      }
      r := StartHelper(user, if resolved.Some? then resolved.value else NO_CREDS, kernelOk, now);
    }

    method StartHelper(user: string, creds: Creds, kernelOk: bool, now: int) returns (r: Result<nat, PoolError>)
      requires Linked(Contents())
      modifies this
      ensures (Contents(), r) == Spawned(old(Contents()), cfg, user, creds, kernelOk, now)
    {
      var room := MakeRoom(now);
      if !room {
        return Err(AllBusy);
      }
      if !SpawnOk(creds, kernelOk) {
        return Err(SpawnFailed);
      }
      var e := next;
      entries := entries[e := Entry(user, creds, 0, 0, creds, now)];
      next := next + 1;
      lru := [e] + lru;
      helpers := helpers[user := e];
      Checkout(e);
      return Ok(e);
    }

    method Close()
      requires NoDup(lru) && forall e | e in lru :: e in entries
      modifies this
      ensures Contents() == AllClosed(old(Contents()))
    {
      hide RetireAll;
      closed := true;
      ghost var start := Contents();
      NothingToRetire();
      var i := |lru|;
      assert lru[..i] == lru;
      while i > 0
        invariant 0 <= i <= |lru| && NoDup(lru) && forall e | e in lru :: e in entries
        invariant RetireAll(Contents(), lru[..i]) == RetireAll(start, start.lru)
      {
        i := i - 1;
        ghost var before := lru;
        RetireAllStep(Contents(), lru, i);
        WithoutAt(lru, i);
        Retire(lru[i]);
        assert lru[..i] == before[..i];
      }
    }
  }

  lemma {:induction false} WithoutAt(q: seq<nat>, i: nat)
    requires i < |q| && NoDup(q)
    ensures Without(q, q[i]) == q[..i] + q[i + 1..] && NoDup(Without(q, q[i]))
  {
    WithoutOnce(q, q[i]);
    if i == 0 {
      assert q[0] !in q[1..];
    } else {
      assert forall j | 0 <= j < |q[1..]| :: q[1..][j] == q[j + 1];
      WithoutAt(q[1..], i - 1);
    }
  }
}
