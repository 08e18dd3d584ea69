/**
 Capability links (internal/share/share.go) kept under the state-file guard by
 several replicas.
 */
module Share {
  import opened Common
  import opened StateFile

  const DAY := 24 * 3600
  const MAX_LIFETIME := 30 * DAY
  const DEFAULT_LIFETIME := 7 * DAY

  /** `secret` stands for the salted hash; two secrets match when they are equal. */
  datatype Link = Link(owner: string, path: string, created: int, secret: Option<string>)

  /** The mutations the store hands to the guard. */
  datatype Op =
    | Create(token: string, entry: Entry<Link>)
    | Revoke(owner: string, token: string)
    | Sweep(now: int)

  function Mutate(o: Op): Mutation<Link> {
    (d: Doc<Link>) =>
      match o
      case Create(t, e) => Changed(d[t := e])
      case Revoke(owner, t) => if t in d && d[t].value.owner == owner then Changed(d - {t}) else Refused
      case Sweep(now) => if Prune(d, now) == d then Unchanged else Changed(Prune(d, now))
  }

  datatype ShareError = BadRequest | NotFound | WrongPassword | StoreFailed

  function Lifetime(asked: int): (r: int)
    ensures 0 < r <= MAX_LIFETIME
    ensures 0 < asked <= MAX_LIFETIME ==> r == asked
    ensures asked <= 0 ==> r == DEFAULT_LIFETIME
    ensures MAX_LIFETIME < asked ==> r == MAX_LIFETIME
  {
    var l := if asked <= 0 then DEFAULT_LIFETIME else asked;
    if l > MAX_LIFETIME then MAX_LIFETIME else l
  }

  /** What a lookup finds: an unknown and a lapsed token are the same error. */
  function Lookup(d: Doc<Link>, token: string, now: int): Option<Link> {
    if Gone(d, token, now) then None else Some(d[token].value)
  }

  function Unlock(l: Option<Link>, password: string): Result<Link, ShareError> {
    match l
    case None => Err(NotFound)
    case Some(link) =>
      if link.secret.Some? && link.secret.value != password then Err(WrongPassword) else Ok(link)
  }

  class Store {
    const guard: Guard<Link>

    constructor ()
      ensures fresh(guard) && guard.Contents() == Local(ZERO_STAMP, false, map[])
    {
      guard := new Guard<Link>();
    }

    /** `token` is the freshly drawn random token. */
    method Create(owner: string, path: string, secret: Option<string>, asked: int, token: string,
                  locked: bool, st: StatResult, rd: ReadResult<Link>, now: int, written: bool, post: StatResult)
      returns (r: Result<Link, ShareError>, file: WriteResult<Link>)
      modifies guard
      ensures owner == "" || path == "" ==> r == Err(BadRequest) && unchanged(guard)
      ensures owner != "" && path != "" ==>
                var e := Entry(Link(owner, path, now, secret), Some(now + Lifetime(asked)));
                && (guard.Contents(), file)
                   == WriteSpec(old(guard.Contents()), locked, st, rd, now, Mutate(Op.Create(token, e)), written, post)
                && r == (if file.Replaced? then Ok(e.value) else Err(StoreFailed))
                && (file.Replaced? ==> Lookup(file.doc, token, now) == Some(e.value))
                // A link reported as failed can be found on this replica all the same.
                && (file.NotReplaced? <==> locked && FreshSpec(old(guard.Contents()), st, rd, now).1 && !written)
                && (file.NotReplaced? ==> Lookup(guard.mem, token, now) == Some(e.value))
    {
      file := NotLocked;
      if owner == "" || path == "" {
        return Err(BadRequest), file;
      }
      var lifetime := asked;
      if lifetime <= 0 {
        lifetime := DEFAULT_LIFETIME;
      }
      if lifetime > MAX_LIFETIME {
        lifetime := MAX_LIFETIME;
      }
      var e := Entry(Link(owner, path, now, secret), Some(now + lifetime));
      file := guard.Write(locked, st, rd, now, Mutate(Op.Create(token, e)), written, post);
      r := if file.Replaced? then Ok(e.value) else Err(StoreFailed);
    }

    /** A reload error does not fail the lookup: the last contents held answer instead. */
    method Resolve(token: string, password: string, st: StatResult, rd: ReadResult<Link>, now: int)
      returns (r: Result<Link, ShareError>)
      modifies guard
      ensures r == Unlock(Lookup(FreshSpec(old(guard.Contents()), st, rd, now).0.mem, token, now), password)
      // A link is given out exactly if it is there, has not lapsed, and has no password or the right one.
      ensures var seen := FreshSpec(old(guard.Contents()), st, rd, now).0.mem;
              var there := token in seen && !(seen[token].expires.Some? && now > seen[token].expires.value);
              && (r == Err(NotFound) <==> !there)
              && (r == Err(WrongPassword) <==> there && seen[token].value.secret.Some? && seen[token].value.secret.value != password)
              && (r.Ok? <==> there && (seen[token].value.secret.Some? ==> seen[token].value.secret.value == password))
              && (r.Ok? ==> r.value == seen[token].value)
      ensures SameLive(guard.mem, FreshSpec(old(guard.Contents()), st, rd, now).0.mem, now)
    {
      var _ := guard.Fresh(st, rd, now);
      if token in guard.mem && Expired(guard.mem[token], now) {
        guard.mem := guard.mem - {token};
        return Err(NotFound);
      }
      if token !in guard.mem {
        return Err(NotFound);
      }
      var link := guard.mem[token].value;
      if link.secret.Some? && link.secret.value != password {
        return Err(WrongPassword);
      }
      return Ok(link);
    }

    /** Only the owner may; a stranger learns nothing and writes nothing. */
    method Revoke(owner: string, token: string, locked: bool, st: StatResult, rd: ReadResult<Link>, now: int,
                  written: bool, post: StatResult)
      returns (r: Result<(), ShareError>, file: WriteResult<Link>)
      modifies guard
      ensures (guard.Contents(), file)
              == WriteSpec(old(guard.Contents()), locked, st, rd, now, Mutate(Op.Revoke(owner, token)), written, post)
      ensures var (seen, ok) := FreshSpec(old(guard.Contents()), st, rd, now);
              var mine := token in seen.mem && seen.mem[token].value.owner == owner;
              && (r.Ok? <==> locked && ok && mine && written)
              && (r == Err(NotFound) <==> locked && ok && !mine)
              && (r.Err? && r != Err(NotFound) ==> r == Err(StoreFailed))
      ensures r.Ok? ==> file.Replaced? && token !in file.doc && token !in guard.mem
    {
      file := guard.Write(locked, st, rd, now, Mutate(Op.Revoke(owner, token)), written, post);
      match file {
        case Replaced(_) => r := Ok(());
        case Declined => r := Err(NotFound);
        case _ => r := Err(StoreFailed);
      }
    }

    /** The loop Sweep runs over its links. */
    method SweepLinks(now: int) returns (changed: bool)
      modifies guard`mem
      ensures guard.mem == Prune(old(guard.mem), now)
      ensures changed <==> guard.mem != old(guard.mem)
    {
      changed := false;
      var todo := guard.mem.Keys;
      while todo != {}
        invariant todo <= old(guard.mem).Keys
        invariant forall k | k in guard.mem :: k in old(guard.mem) && guard.mem[k] == old(guard.mem)[k]
        invariant forall k | k in old(guard.mem) :: k in guard.mem <==> k in todo || !Expired(old(guard.mem)[k], now)
        invariant changed <==> guard.mem != old(guard.mem)
      {
        var k :| k in todo;
        todo := todo - {k};
        if Expired(guard.mem[k], now) {
          guard.mem := guard.mem - {k};
          changed := true;
        }
      }
      assert guard.mem == Prune(old(guard.mem), now);
    }
  }

  /** A sweep writes exactly if a link has lapsed, and then keeps exactly those that have not. */
  lemma SweepMeans(d: Doc<Link>, now: int)
    ensures var r := Mutate(Op.Sweep(now))(d);
            && (r.Changed? <==> exists k :: k in d && d[k].expires.Some? && now > d[k].expires.value) && !r.Refused?
            && (r.Changed? ==> forall k :: k in r.doc <==> k in d && !(d[k].expires.Some? && now > d[k].expires.value))
            && (r.Changed? ==> forall k | k in r.doc :: r.doc[k] == d[k])
  {
    if k :| k in d && Expired(d[k], now) {
      assert k !in Prune(d, now);
    }
  }

  // ----------------------------------------------------------- over all replicas

  lemma OpsNeverRevive(o: Op, token: string)
    requires o.Create? ==> o.token != token
    ensures NeverRevives(Mutate(o), token)
  {
  }

  lemma OpsRetain(o: Op, token: string, e: Entry<Link>)
    requires o.Create? ==> o.token != token
    requires o.Revoke? ==> o.token != token || o.owner != e.value.owner
    requires o.Sweep? ==> !Expired(e, o.now)
    ensures Retains(Mutate(o), token, e)
  {
  }

  /** A run of replicas that only use the store's mutations. */
  ghost predicate ShareRun(b: seq<State<Link>>, acts: seq<Action<Link>>, ops: seq<Op>) {
    && CleanRun(b, acts)
    && |ops| == |acts|
    && forall i | 0 <= i < |acts| && acts[i].Replace? :: acts[i].op == Mutate(ops[i])
  }

  /** Random tokens: no later Create draws `token` again. */
  predicate NeverDrawn(ops: seq<Op>, from: nat, token: string) {
    forall i | from <= i < |ops| :: ops[i].Create? ==> ops[i].token != token
  }

  lemma {:induction false} LoggedOpsAreShareOps(b: seq<State<Link>>, acts: seq<Action<Link>>, ops: seq<Op>,
                                                i: nat, n: nat, k: nat)
    requires ShareRun(b, acts, ops) && i <= n < |b| && |b[i].log| <= k < |b[n].log|
    ensures exists j :: i <= j < n && acts[j].Replace? && b[n].log[k].op == Mutate(ops[j])
    decreases n - i
  {
    var s, a := b[n - 1], acts[n - 1];
    VersionsOnlyGrow(b, acts, i, n - 1);
    assert Enabled(s, a) && b[n] == Apply(s, a);
    if k < |s.log| {
      LoggedOpsAreShareOps(b, acts, ops, i, n - 1, k);
      assert b[n].log[k] == s.log[k];
    }
  }

  lemma LaterOpsNeverRevive(b: seq<State<Link>>, acts: seq<Action<Link>>, ops: seq<Op>, i: nat, n: nat, token: string)
    requires ShareRun(b, acts, ops) && i <= n < |b| && NeverDrawn(ops, i, token)
    ensures forall j | |b[i].log| <= j < |b[n].log| :: NeverRevives(b[n].log[j].op, token)
  {
    forall j | |b[i].log| <= j < |b[n].log| ensures NeverRevives(b[n].log[j].op, token) {
      LoggedOpsAreShareOps(b, acts, ops, i, n, j);
      var q :| i <= q < n && acts[q].Replace? && b[n].log[j].op == Mutate(ops[q]);
      OpsNeverRevive(ops[q], token);
    }
  }

  lemma RevokeRemoves(s: State<Link>, a: Action<Link>, owner: string, token: string)
    requires Enabled(s, a) && a.Replace? && a.op == Mutate(Op.Revoke(owner, token))
    ensures var t := Apply(s, a);
            |t.versions| == |s.versions| + 1 && |t.log| == |s.log| + 1
            && Gone(t.versions[|s.versions|].doc, token, t.log[|s.log|].at)
  {
  }

  /** A removed link is missing from every later version as well. */
  lemma RemovedStaysRemoved(b: seq<State<Link>>, acts: seq<Action<Link>>, ops: seq<Op>, i: nat, m: nat, token: string)
    requires ShareRun(b, acts, ops) && i <= m < |b| && NeverDrawn(ops, i, token)
    requires Inv(b[i]) && |b[i].log| >= 1
    requires Gone(b[i].versions[|b[i].log|].doc, token, b[i].log[|b[i].log| - 1].at)
    ensures |b[m].versions| == |b[m].log| + 1 && |b[m].log| >= 1
    ensures Gone(b[m].versions[|b[m].log|].doc, token, b[m].log[|b[m].log| - 1].at)
  {
    RunKeepsInv(b, acts, m);
    VersionsOnlyGrow(b, acts, i, m);
    LaterOpsNeverRevive(b, acts, ops, i, m, token);
    var k := |b[i].log|;
    assert b[m].versions[k] == b[i].versions[k] && b[m].log[k - 1] == b[i].log[k - 1];
    GoneFromThenOn(b[m], token, k, |b[m].log|);
  }

  /**
   Once Revoke has committed on one replica, no Resolve that begins afterwards on any
   replica yields the link, provided that Resolve's own Fresh did not fail.
   */
  lemma RevokedLinkNeverResolves(b: seq<State<Link>>, acts: seq<Action<Link>>, ops: seq<Op>,
                                 i: nat, m: nat, n: nat, r: nat, owner: string, token: string)
    requires ShareRun(b, acts, ops) && i < m <= n < |b|
    requires acts[i].Replace? && ops[i] == Op.Revoke(owner, token)
    requires NeverDrawn(ops, i + 1, token)
    requires r < |b[m].replicas| && BeforeStat(b[m].replicas[r])
    ensures |b[n].replicas| == |b[m].replicas|
    ensures var p := b[n].replicas[r];
            p.phase.Ready? && p.phase.ok ==> Lookup(p.local.mem, token, b[n].now) == None
  {
    RunKeepsInv(b, acts, i);
    RunKeepsInv(b, acts, i + 1);
    RevokeRemoves(b[i], acts[i], owner, token);
    RemovedStaysRemoved(b, acts, ops, i + 1, m, token);
    LaterOpsNeverRevive(b, acts, ops, m, n, token);
    RemovedKeyIsNeverReadAgain(b, acts, m, n, r, token);
  }

  /**
   A link one replica created is found by every later error-free Resolve on every
   replica until it lapses or its owner revokes it: no other replica's write loses it.
   */
  lemma CreatedLinkIsFoundEverywhere(b: seq<State<Link>>, acts: seq<Action<Link>>, ops: seq<Op>,
                                     i: nat, m: nat, n: nat, r: nat, token: string, e: Entry<Link>)
    requires ShareRun(b, acts, ops) && i < m <= n < |b|
    requires acts[i].Replace? && ops[i] == Op.Create(token, e) && !Expired(e, b[n].now) && !Expired(e, b[i].now)
    requires NeverDrawn(ops, i + 1, token)
    requires forall j | i < j < n && ops[j].Revoke? :: ops[j].token != token || ops[j].owner != e.value.owner
    requires forall j | i < j < n && ops[j].Sweep? :: !Expired(e, ops[j].now)
    requires r < |b[m].replicas| && BeforeStat(b[m].replicas[r])
    ensures |b[n].replicas| == |b[m].replicas|
    ensures var p := b[n].replicas[r];
            p.phase.Ready? && p.phase.ok ==> Lookup(p.local.mem, token, b[n].now) == Some(e.value)
  {
    assert Enabled(b[i], acts[i]) && b[i + 1] == Apply(b[i], acts[i]);
    RunKeepsInv(b, acts, i + 1);
    RunKeepsInv(b, acts, n);
    VersionsOnlyGrow(b, acts, i + 1, m);
    VersionsOnlyGrow(b, acts, m, n);
    ReadsAreFresh(b, acts, m, n, r);
    var s := b[n];
    var p := s.replicas[r];
    if p.phase.Ready? && p.phase.ok {
      var k := |b[i + 1].log|;
      assert s.versions[k] == b[i + 1].versions[k];
      forall j | k <= j < p.base ensures Retains(s.log[j].op, token, e) {
        LoggedOpsAreShareOps(b, acts, ops, i + 1, n, j);
        var q :| i + 1 <= q < n && acts[q].Replace? && s.log[j].op == Mutate(ops[q]);
        OpsRetain(ops[q], token, e);
      }
      KeptFromThenOn(s, token, e, k, p.base);
      SameLiveMember(s.versions[p.base].doc, p.local.mem, token, s.now);
    }
  }

  /**
   Exactly when a revoked link is still found.  After the revoke at step i, whatever steps followed and
   whatever locks, stats and reads failed, a lookup on replica r yields the link if and only if the replica's
   contents are those of a version from before the revoke in which the link has not lapsed by now.  (No
   rename fails in the run: a replica is then ahead of the file, with contents of no version.)
   */
  lemma RevokedLinkResolvesIffMemoryIsOlder(b: seq<State<Link>>, acts: seq<Action<Link>>, ops: seq<Op>,
                                            i: nat, n: nat, r: nat, owner: string, token: string)
    requires ShareRun(b, acts, ops) && i < n < |b| && r < |b[n].replicas|
    requires acts[i].Replace? && ops[i] == Op.Revoke(owner, token) && NeverDrawn(ops, i + 1, token)
    ensures var p, now := b[n].replicas[r], b[n].now;
            Lookup(p.local.mem, token, now) != None
            <==> p.base < |b[i].versions| && !Gone(b[i].versions[p.base].doc, token, now)
  {
    RunKeepsInv(b, acts, i);
    RunKeepsInv(b, acts, i + 1);
    RunKeepsInv(b, acts, n);
    RevokeRemoves(b[i], acts[i], owner, token);
    VersionsOnlyGrow(b, acts, i, n);
    VersionsOnlyGrow(b, acts, i + 1, n);
    LaterOpsNeverRevive(b, acts, ops, i + 1, n, token);
    var k, s := |b[i].versions|, b[n];
    var p := s.replicas[r];
    assert ReplicaOk(s, p);
    SameLiveMember(s.versions[p.base].doc, p.local.mem, token, s.now);
    if k <= p.base {
      assert s.versions[k] == b[i + 1].versions[k] && s.log[k - 1] == b[i + 1].log[k - 1];
      GoneFromThenOn(s, token, k, p.base);
      assert s.log[p.base - 1].at <= s.now;
    } else {
      assert s.versions[p.base] == b[i].versions[p.base];
    }
  }

  // ------------------------------------------- the condition is needed: an example run

  const TOKEN := "t"
  const ISSUED := Entry(Link("owner", "teams/a/f", 0, None), Some(100))

  /** Replica 0 issues a link, replica 1 reads it. */
  function IssueAndRead(): seq<Action<Link>> {
    [Lock(0), Stat(0), Replace(0, Mutate(Op.Create(TOKEN, ISSUED)), Stamp(1, 1)), PostStat(0),
     Stat(1), Read(1), Return(1)]
  }

  /** Replica 0 revokes it; then replica 1's stat fails. */
  function RevokeThenFail(): seq<Action<Link>> {
    [Lock(0), Stat(0), Replace(0, Mutate(Op.Revoke("owner", TOKEN)), Stamp(2, 0)), PostStat(0), StatFails(1)]
  }

  ghost predicate Follows(b: seq<State<Link>>, acts: seq<Action<Link>>) {
    |b| == |acts| + 1 && forall i | 0 <= i < |acts| :: Enabled(b[i], acts[i]) && b[i + 1] == Apply(b[i], acts[i])
  }

  lemma IssueAndReadRun() returns (b: seq<State<Link>>)
    ensures Follows(b, IssueAndRead()) && Init(b[0])
    ensures var s := b[7];
            && |s.versions| == 2 && s.versions[1] == Version(map[TOKEN := ISSUED], Stamp(1, 1))
            && s.versions[0].stamp == ZERO_STAMP
            && s.holder.None? && s.now == 0 && |s.replicas| == 2
            && (forall r | 0 <= r < 2 :: s.replicas[r].phase.Idle? && s.replicas[r].local == Local(Stamp(1, 1), true, map[TOKEN := ISSUED]))
  {
    var s0: State<Link> := State([Version(map[], ZERO_STAMP)], [], [Fresh0(), Fresh0()], None, 0);
    var s1 := Apply(s0, Lock(0));
    var s2 := Apply(s1, Stat(0));
    var op := Mutate(Op.Create(TOKEN, ISSUED));
    assert op(s2.replicas[0].local.mem) == Changed(map[TOKEN := ISSUED]);
    assert Prune(map[TOKEN := ISSUED], 0) == map[TOKEN := ISSUED];
    var s3 := Apply(s2, Replace(0, op, Stamp(1, 1)));
    var s4 := Apply(s3, PostStat(0));
    var s5 := Apply(s4, Stat(1));
    var s6 := Apply(s5, Read(1));
    var s7 := Apply(s6, Return(1));
    b := [s0, s1, s2, s3, s4, s5, s6, s7];
  }

  lemma RevokeThenFailRun(s0: State<Link>) returns (b: seq<State<Link>>)
    requires |s0.versions| == 2 && s0.versions[1] == Version(map[TOKEN := ISSUED], Stamp(1, 1))
    requires s0.versions[0].stamp == ZERO_STAMP
    requires s0.holder.None? && s0.now == 0 && |s0.replicas| == 2
    requires forall r | 0 <= r < 2 :: s0.replicas[r].phase.Idle? && s0.replicas[r].local == Local(Stamp(1, 1), true, map[TOKEN := ISSUED])
    ensures Follows(b, RevokeThenFail()) && b[0] == s0 && |b[4].replicas| == 2 && BeforeStat(b[4].replicas[1])
    ensures var s := b[5];
            && |s.versions| == 3 && |s.replicas| == 2 && s.versions[2].doc == map[] && s.now == 0
            && s.replicas[1].phase == Ready(false, false)
            && s.replicas[1].local.mem == map[TOKEN := ISSUED]
  {
    var s1 := Apply(s0, Lock(0));
    var s2 := Apply(s1, Stat(0));
    var op := Mutate(Op.Revoke("owner", TOKEN));
    assert s2.replicas[0].local.mem == map[TOKEN := ISSUED];
    assert map[TOKEN := ISSUED] - {TOKEN} == map[];
    assert op(s2.replicas[0].local.mem) == Changed(map[]);
    var s3 := Apply(s2, Replace(0, op, Stamp(2, 0)));
    var s4 := Apply(s3, PostStat(0));
    var s5 := Apply(s4, StatFails(1));
    b := [s0, s1, s2, s3, s4, s5];
  }

  /**
   Without that condition the property is false: a Resolve whose stat fails falls back
   on the contents it holds and yields a link that was revoked before it began.
   */
  lemma FailedStatResolvesRevokedLink() returns (b: seq<State<Link>>, acts: seq<Action<Link>>, ops: seq<Op>)
    ensures ShareRun(b, acts, ops) && |acts| == 12 && NeverDrawn(ops, 10, TOKEN)
    ensures acts[9].Replace? && ops[9] == Op.Revoke("owner", TOKEN)
    ensures |b[11].replicas| == |b[12].replicas| == 2 && BeforeStat(b[11].replicas[1])
    ensures b[12].replicas[1].phase.Ready? && Lookup(b[12].replicas[1].local.mem, TOKEN, b[12].now) == Some(ISSUED.value)
  {
    hide Apply, Enabled, Mutate;
    var b1 := IssueAndReadRun();
    var b2 := RevokeThenFailRun(b1[7]);
    b := b1 + b2[1..];
    acts := IssueAndRead() + RevokeThenFail();
    var create, revoke, sweep := Op.Create(TOKEN, ISSUED), Op.Revoke("owner", TOKEN), Op.Sweep(0);
    ops := [sweep, sweep, create, sweep, sweep, sweep, sweep, sweep, sweep, revoke, sweep, sweep];
    JoinedRuns(b1, IssueAndRead(), b2, RevokeThenFail());
    assert b[11] == b2[4] && b[12] == b2[5];
  }

  lemma JoinedRuns(b: seq<State<Link>>, acts: seq<Action<Link>>, c: seq<State<Link>>, more: seq<Action<Link>>)
    requires Follows(b, acts) && Follows(c, more) && b[|b| - 1] == c[0]
    ensures Follows(b + c[1..], acts + more)
  {
    hide Enabled, Apply;
    var all, steps := b + c[1..], acts + more;
    forall i | 0 <= i < |steps| ensures Enabled(all[i], steps[i]) && all[i + 1] == Apply(all[i], steps[i]) {
      if i < |acts| {
        assert all[i] == b[i] && all[i + 1] == b[i + 1];
      } else {
        assert all[i] == c[i - |acts|] && all[i + 1] == c[i + 1 - |acts|];
      }
    }
  }
}
