/** The guard around a state file that several replicas share (internal/statefile/statefile.go). */
module StateFile {
  // Each replica keeps the last contents it loaded and the stamp (mtime, size) it
  // believes those contents have.  Writers hold an advisory lock over the whole
  // read-modify-write; readers take no lock, so another replica may commit between a
  // reader's stat and its read.
  //
  // `Guard` is the object one replica owns.  `State` and `Action` describe any number of
  // replicas interleaved step by step, and every step uses the same functions the methods
  // of `Guard` are proved against.

  import opened Common

  // ---------------------------------------------------------------- documents

  /** One record of a stored document; `expires` is None for records that never lapse. */
  datatype Entry<+V> = Entry(value: V, expires: Option<int>)

  type Doc<+V> = map<string, Entry<V>>

  predicate Expired<V>(e: Entry<V>, now: int) {
    e.expires.Some? && now > e.expires.value
  }

  /** What loading and marshalling keep: the records that have not lapsed. */
  function Prune<V>(d: Doc<V>, now: int): Doc<V> {
    map k | k in d && !Expired(d[k], now) :: d[k]
  }

  predicate NeverLapses<V>(d: Doc<V>) {
    forall k | k in d :: d[k].expires.None?
  }

  /** A mutation: an error, nothing to write, or a new document. */
  datatype Outcome<+V> = Refused | Unchanged | Changed(doc: Doc<V>)

  type Mutation<!V> = Doc<V> -> Outcome<V>

  // ------------------------------------------------------------ one replica

  datatype Stamp = Stamp(mtime: int, size: int)

  const ZERO_STAMP := Stamp(0, 0)

  datatype StatResult = NotExist | StatFailed | Found(stamp: Stamp)

  datatype ReadResult<+V> = ReadFailed | Data(doc: Doc<V>)

  datatype Local<+V> = Local(stamp: Stamp, loaded: bool, mem: Doc<V>)

  datatype Verdict = Current | MustRead(stamp: Stamp) | Failed

  /** Everything Fresh does before it opens the file. */
  function StatStep<V>(l: Local<V>, st: StatResult): (Local<V>, Verdict) {
    match st
    case NotExist => if l.loaded then (l, Current) else (l.(mem := map[], loaded := true), Current)
    case StatFailed => (l, Failed)
    case Found(s) => if l.loaded && s == l.stamp then (l, Current) else (l, MustRead(s))
  }

  /** Load the bytes read, then record the stamp seen before reading them. */
  function ReadStep<V>(st: Stamp, d: Doc<V>, now: int): Local<V> {
    Local(st, true, Prune(d, now))
  }

  function FreshSpec<V>(l: Local<V>, st: StatResult, rd: ReadResult<V>, now: int): (Local<V>, bool) {
    var (l1, v) := StatStep(l, st);
    match v
    case Current => (l1, true)
    case Failed => (l1, false)
    case MustRead(s) => if rd.Data? then (ReadStep(s, rd.doc, now), true) else (l1, false)
  }

  /** The last stat of Write: it only runs after the rename, and its failure is ignored. */
  function PostStatStep<V>(l: Local<V>, post: StatResult): Local<V> {
    if post.Found? then l.(stamp := post.stamp, loaded := true) else l
  }

  datatype WriteResult<+V> = NotLocked | NotReloaded | Declined | NothingToDo | NotReplaced | Replaced(doc: Doc<V>)

  /** `locked` and `written` say whether the lock was got and whether marshal and rename worked. */
  function WriteSpec<V>(l: Local<V>, locked: bool, st: StatResult, rd: ReadResult<V>, now: int, op: Mutation<V>,
                        written: bool, post: StatResult): (Local<V>, WriteResult<V>)
  {
    if !locked then (l, NotLocked)
    else
      var (l1, ok) := FreshSpec(l, st, rd, now);
      if !ok then (l1, NotReloaded)
      else match op(l1.mem)
           case Refused => (l1, Declined)
           case Unchanged => (l1, NothingToDo)
           case Changed(m) =>
             // The memory is ahead of the file when the file could not be replaced.
             if written then (PostStatStep(l1.(mem := m), post), Replaced(Prune(m, now))) else (l1.(mem := m), NotReplaced)
  }

  /**
   One replica's guard together with the caller's state it loads into.  What the
   filesystem answers is a parameter of each method.
   */
  class Guard<V> {
    var mtime: int
    var size: int
    var loaded: bool
    var mem: Doc<V>

    function Contents(): Local<V>
      reads this
    {
      Local(Stamp(mtime, size), loaded, mem)
    }

    constructor ()
      ensures Contents() == Local(ZERO_STAMP, false, map[])
    {
      mtime, size, loaded, mem := 0, 0, false, map[];
    }

    method Load(d: Doc<V>, now: int)
      modifies this`mem
      ensures mem == Prune(d, now)
    {
      mem := map k | k in d && !Expired(d[k], now) :: d[k];
    }

    method Fresh(st: StatResult, rd: ReadResult<V>, now: int) returns (ok: bool)
      modifies this
      ensures (Contents(), ok) == FreshSpec(old(Contents()), st, rd, now)
    {
      match st {
        case NotExist =>
          if loaded {
            return true;
          }
          Load(map[], now);
          loaded := true;
          return true;
        case StatFailed =>
          return false;
        case Found(s) =>
          if loaded && s.mtime == mtime && s.size == size {
            return true;
          }
          match rd {
            case ReadFailed => return false;
            case Data(d) =>
              Load(d, now);
              mtime, size, loaded := s.mtime, s.size, true;
              return true;
          }
      }
    }

    /** The rename is the caller-visible effect: the document is what replaces the file. */
    method Write(locked: bool, st: StatResult, rd: ReadResult<V>, now: int, op: Mutation<V>, written: bool, post: StatResult)
      returns (r: WriteResult<V>)
      modifies this
      ensures (Contents(), r) == WriteSpec(old(Contents()), locked, st, rd, now, op, written, post)
      ensures var (seen, ok) := FreshSpec(old(Contents()), st, rd, now);
              && (r == NotLocked <==> !locked) && (r == NotReloaded <==> locked && !ok)
              && (r == Declined <==> locked && ok && op(seen.mem).Refused?)
              && (r == NothingToDo <==> locked && ok && op(seen.mem).Unchanged?)
              && (r == NotReplaced <==> locked && ok && op(seen.mem).Changed? && !written)
              && (r.Replaced? <==> locked && ok && op(seen.mem).Changed? && written)
              // Without a change to write the call leaves exactly what the reload left.
              && Contents().mem == (if locked && ok && op(seen.mem).Changed? then op(seen.mem).doc
                                    else if locked then seen.mem else old(Contents()).mem)
              && (r.Replaced? ==> r.doc == Prune(op(seen.mem).doc, now))
              && (r.Replaced? && post.Found? ==> Contents().stamp == post.stamp && Contents().loaded)
              && (!(r.Replaced? && post.Found?) ==>
                    Contents().stamp == (if locked then seen.stamp else old(Contents()).stamp)
                    && Contents().loaded == (if locked then seen.loaded else old(Contents()).loaded))
    {
      if !locked {
        return NotLocked;
      }
      var ok := Fresh(st, rd, now);
      if !ok {
        return NotReloaded;
      }
      match op(mem) {
        case Refused => return Declined;
        case Unchanged => return NothingToDo;
        case Changed(m) =>
          mem := m;
          if !written {
            return NotReplaced;
          }
          r := Replaced(map k | k in m && !Expired(m[k], now) :: m[k]);
          if post.Found? {
            mtime, size, loaded := post.stamp.mtime, post.stamp.size, true;
          }
      }
    }
  }

  // ------------------------------------------------------------ all replicas

  datatype Version<+V> = Version(doc: Doc<V>, stamp: Stamp)

  /** One entry of the commit history: which mutation ran, on what memory, and when. */
  datatype Commit<!V> = Commit(op: Mutation<V>, mem: Doc<V>, at: int)

  /** Where a replica is inside Fresh or Write. */
  datatype Phase =
    | Idle
    | Locked                             // Write: lock taken, Fresh not begun
    | Reading(writing: bool, st: Stamp)  // Fresh: stat said the file changed
    | Ready(writing: bool, ok: bool)     // Fresh returned; ok is whether it returned nil
    | Renamed                            // Write: file replaced, last stat still to come

  /**
   `base`, `seen` and `stampOf` are history: the version the memory came from, the
   version current at the last stat, and the version the recorded stamp belongs to.
   */
  datatype Replica<+V> = Replica(local: Local<V>, phase: Phase, base: nat, seen: nat, stampOf: nat)

  /** versions[0] stands for the file before it exists. */
  datatype State<!V> = State(versions: seq<Version<V>>, log: seq<Commit<V>>, replicas: seq<Replica<V>>,
                             holder: Option<nat>, now: int)

  datatype Action<!V> =
    | Lock(r: nat)
    | Stat(r: nat)
    | StatFails(r: nat)
    | Read(r: nat)
    | ReadFails(r: nat)
    | Return(r: nat)                                    // a reader is done with its memory
    | DropLapsed(r: nat, key: string)                   // a lookup forgets a lapsed record
    | Abandon(r: nat, op: Mutation<V>)                  // mutate reports an error or no change
    | Replace(r: nat, op: Mutation<V>, stamp: Stamp)    // mutate, marshal, rename
    | ReplaceFails(r: nat, op: Mutation<V>)             // mutate, then marshal or rename fails
    | PostStat(r: nat)
    | PostStatFails(r: nat)
    | Crash(r: nat)
    | Tick(now: int)

  function Fresh0<V>(): Replica<V> { Replica(Local(ZERO_STAMP, false, map[]), Idle, 0, 0, 0) }

  ghost predicate Init<V>(s: State<V>) {
    && s.versions == [Version(map[], ZERO_STAMP)]
    && s.log == []
    && (forall r | 0 <= r < |s.replicas| :: s.replicas[r] == Fresh0())
    && s.holder.None?
  }

  function StatOf<V>(s: State<V>): StatResult
    requires |s.versions| > 0
  {
    if |s.versions| == 1 then NotExist else Found(s.versions[|s.versions| - 1].stamp)
  }

  predicate Holds<V>(p: Replica<V>) {
    p.phase.Locked? || (p.phase.Reading? && p.phase.writing) || (p.phase.Ready? && p.phase.writing) || p.phase.Renamed?
  }

  predicate BeforeStat<V>(p: Replica<V>) { p.phase.Idle? || p.phase.Locked? }

  ghost predicate Enabled<V>(s: State<V>, a: Action<V>) {
    if a.Tick? then s.now <= a.now
    else
      && a.r < |s.replicas|
      && |s.versions| > 0
      && var p := s.replicas[a.r];
      match a
      case Lock(_) => p.phase.Idle? && s.holder.None?
      case Stat(_) => BeforeStat(p)
      case StatFails(_) => BeforeStat(p)
      case Read(_) => p.phase.Reading?
      case ReadFails(_) => p.phase.Reading?
      case Return(_) => p.phase.Ready? && !p.phase.writing
      case DropLapsed(_, k) => p.phase.Ready? && k in p.local.mem && Expired(p.local.mem[k], s.now)
      case Abandon(_, op) => p.phase == Ready(true, true) && !op(p.local.mem).Changed?
      case Replace(_, op, stamp) =>
        && p.phase == Ready(true, true)
        && op(p.local.mem).Changed?
        // Stamps tell committed versions apart.
        && (forall i | 0 <= i < |s.versions| :: s.versions[i].stamp != stamp)
      case ReplaceFails(_, op) => p.phase == Ready(true, true) && op(p.local.mem).Changed?
      case PostStat(_) => p.phase.Renamed?
      case PostStatFails(_) => p.phase.Renamed?
      case Crash(_) => true
  }

  function With<V>(s: State<V>, r: nat, p: Replica<V>): State<V>
    requires r < |s.replicas|
  {
    s.(replicas := s.replicas[r := p])
  }

  ghost function Apply<V>(s: State<V>, a: Action<V>): State<V>
    requires Enabled(s, a)
  {
    if a.Tick? then s.(now := a.now)
    else
      var r := a.r;
      var p := s.replicas[r];
      var top := |s.versions| - 1;
      match a
      case Lock(_) => With(s, r, p.(phase := Locked)).(holder := Some(r))
      case Stat(_) =>
        var (l, v) := StatStep(p.local, StatOf(s));
        With(s, r, p.(local := l, seen := top,
                      phase := if v.MustRead? then Reading(Holds(p), v.stamp) else Ready(Holds(p), true)))
      case StatFails(_) =>
        if Holds(p) then With(s, r, p.(phase := Idle)).(holder := None)
        else With(s, r, p.(phase := Ready(false, false)))
      case Read(_) =>
        With(s, r, p.(local := ReadStep(p.phase.st, s.versions[top].doc, s.now),
                      base := top, stampOf := p.seen, phase := Ready(p.phase.writing, true)))
      case ReadFails(_) =>
        if Holds(p) then With(s, r, p.(phase := Idle)).(holder := None)
        else With(s, r, p.(phase := Ready(false, false)))
      case Return(_) => With(s, r, p.(phase := Idle))
      case DropLapsed(_, k) => With(s, r, p.(local := p.local.(mem := p.local.mem - {k})))
      case Abandon(_, _) => With(s, r, p.(phase := Idle)).(holder := None)
      case Replace(_, op, stamp) =>
        var m := op(p.local.mem).doc;
        With(s, r, p.(local := p.local.(mem := m), base := top + 1, phase := Renamed))
          .(versions := s.versions + [Version(Prune(m, s.now), stamp)],
            log := s.log + [Commit(op, p.local.mem, s.now)])
      case ReplaceFails(_, op) =>
        With(s, r, p.(local := p.local.(mem := op(p.local.mem).doc), phase := Idle)).(holder := None)
      case PostStat(_) =>
        With(s, r, p.(local := PostStatStep(p.local, StatOf(s)), stampOf := top, phase := Idle)).(holder := None)
      case PostStatFails(_) => With(s, r, p.(phase := Idle)).(holder := None)
      case Crash(_) =>
        With(s, r, Fresh0()).(holder := if s.holder == Some(r) then None else s.holder)
  }

  // ------------------------------------------------------------ the invariant

  /** Two documents agree on every record that has not lapsed. */
  predicate SameLive<V(==)>(d: Doc<V>, e: Doc<V>, now: int) {
    Prune(d, now) == Prune(e, now)
  }

  /** Version k+1 is what commit k made of version k. */
  ghost predicate Folds<V>(s: State<V>, k: nat)
    requires k < |s.log| && k + 1 < |s.versions|
  {
    var c := s.log[k];
    && SameLive(s.versions[k].doc, c.mem, c.at)
    && c.op(c.mem).Changed?
    && s.versions[k + 1].doc == Prune(c.op(c.mem).doc, c.at)
  }

  ghost predicate HistoryOk<V>(s: State<V>) {
    && |s.versions| == |s.log| + 1
    && s.versions[0] == Version(map[], ZERO_STAMP)
    && (forall i, j | 0 <= i < j < |s.versions| :: s.versions[i].stamp != s.versions[j].stamp)
    && (forall k | 0 <= k < |s.log| :: Folds(s, k))
    && (forall k | 0 <= k < |s.log| :: s.log[k].at <= s.now)
    && (forall i, j | 0 <= i < j < |s.log| :: s.log[i].at <= s.log[j].at)
  }

  ghost predicate ReplicaOk<V>(s: State<V>, p: Replica<V>) {
    && p.base < |s.versions| && p.seen < |s.versions| && p.stampOf <= p.base
    && p.local.stamp == s.versions[p.stampOf].stamp
    && SameLive(s.versions[p.base].doc, p.local.mem, s.now)
    && (p.phase.Reading? ==> p.phase.st == s.versions[p.seen].stamp)
    && (p.phase.Ready? && p.phase.ok ==> p.seen <= p.base)
    && (p.phase.Ready? && p.phase.writing ==> p.phase.ok)
    && (p.phase.Reading? && p.phase.writing ==> p.seen == |s.versions| - 1)
    && ((p.phase.Ready? && p.phase.writing) || p.phase.Renamed? ==> p.base == |s.versions| - 1)
  }

  ghost predicate Inv<V>(s: State<V>) {
    && HistoryOk(s)
    && (forall r | 0 <= r < |s.replicas| :: ReplicaOk(s, s.replicas[r]))
    && (forall r | 0 <= r < |s.replicas| :: Holds(s.replicas[r]) <==> s.holder == Some(r))
  }

  lemma PruneLater<V>(d: Doc<V>, e: Doc<V>, now: int, later: int)
    requires now <= later && SameLive(d, e, now)
    ensures SameLive(d, e, later)
  {
    assert forall x: Doc<V> :: Prune(x, later) == Prune(Prune(x, now), later);
  }

  lemma InitHolds<V>(s: State<V>)
    requires Init(s)
    ensures Inv(s)
  {
  }

  predicate Clean<V>(a: Action<V>) {
    !a.ReplaceFails?
  }

  /** The other replicas are untouched by a step, so only time and the file move under them. */
  lemma OthersKept<V>(s: State<V>, a: Action<V>, q: nat)
    requires Inv(s) && Enabled(s, a) && Clean(a) && q < |s.replicas|
    requires a.Tick? || q != a.r
    ensures ReplicaOk(Apply(s, a), s.replicas[q]) && Apply(s, a).replicas[q] == s.replicas[q]
  {
    var p := s.replicas[q];
    if a.Tick? {
      PruneLater(s.versions[p.base].doc, p.local.mem, s.now, a.now);
    }
  }

  lemma HistoryKept<V>(s: State<V>, a: Action<V>)
    requires Inv(s) && Enabled(s, a) && Clean(a)
    ensures HistoryOk(Apply(s, a))
  {
    var t := Apply(s, a);
    if a.Replace? {
      forall k | 0 <= k < |t.log| ensures Folds(t, k) {
        if k < |s.log| {
          assert Folds(s, k);
        }
      }
    } else {
      assert t.versions == s.versions && t.log == s.log && s.now <= t.now;
      forall k | 0 <= k < |t.log| ensures Folds(t, k) {
        assert Folds(s, k);
      }
    }
  }

  lemma ReplacerKept<V>(s: State<V>, a: Action<V>)
    requires Inv(s) && Enabled(s, a) && a.Replace?
    ensures ReplicaOk(Apply(s, a), Apply(s, a).replicas[a.r])
  {
    var p := s.replicas[a.r];
    assert ReplicaOk(s, p);
    var m := a.op(p.local.mem).doc;
    assert SameLive(Prune(m, s.now), m, s.now);
  }

  lemma ReaderKept<V>(s: State<V>, a: Action<V>)
    requires Inv(s) && Enabled(s, a) && (a.Stat? || a.Read?)
    ensures ReplicaOk(Apply(s, a), Apply(s, a).replicas[a.r])
  {
    var p := s.replicas[a.r];
    assert ReplicaOk(s, p);
    assert Holds(p) <==> s.holder == Some(a.r);
    if a.Read? {
      assert SameLive(s.versions[|s.versions| - 1].doc, Prune(s.versions[|s.versions| - 1].doc, s.now), s.now);
    }
  }

  lemma ActorKept<V>(s: State<V>, a: Action<V>)
    requires Inv(s) && Enabled(s, a) && Clean(a) && !a.Tick?
    ensures ReplicaOk(Apply(s, a), Apply(s, a).replicas[a.r])
  {
    if a.Replace? {
      ReplacerKept(s, a);
    } else if a.Stat? || a.Read? {
      ReaderKept(s, a);
    } else {
      var p := s.replicas[a.r];
      assert ReplicaOk(s, p);
      if a.DropLapsed? {
        assert Prune(p.local.mem, s.now) == Prune(p.local.mem - {a.key}, s.now);
      }
    }
  }

  /** Every step of every replica keeps the invariant. */
  lemma StepKeepsInv<V>(s: State<V>, a: Action<V>)
    requires Inv(s) && Enabled(s, a) && Clean(a)
    ensures Inv(Apply(s, a))
  {
    hide ReplicaOk, HistoryOk;
    var t := Apply(s, a);
    HistoryKept(s, a);
    forall q | 0 <= q < |t.replicas| ensures ReplicaOk(t, t.replicas[q]) {
      if a.Tick? || q != a.r {
        OthersKept(s, a, q);
      } else {
        ActorKept(s, a);
      }
    }
  }

  // -------------------------------------------------------------------- runs

  ghost predicate Run<V>(b: seq<State<V>>, acts: seq<Action<V>>) {
    && |b| == |acts| + 1
    && Init(b[0])
    && (forall i | 0 <= i < |acts| :: Enabled(b[i], acts[i]) && b[i + 1] == Apply(b[i], acts[i]))
  }

  ghost predicate CleanRun<V>(b: seq<State<V>>, acts: seq<Action<V>>) {
    Run(b, acts) && forall i | 0 <= i < |acts| :: Clean(acts[i])
  }

  lemma {:induction false} RunKeepsInv<V>(b: seq<State<V>>, acts: seq<Action<V>>, n: nat)
    requires CleanRun(b, acts) && n < |b|
    ensures Inv(b[n])
  {
    if n == 0 {
      InitHolds(b[0]);
    } else {
      RunKeepsInv(b, acts, n - 1);
      StepKeepsInv(b[n - 1], acts[n - 1]);
    }
  }

  /**
   No update is lost: in every interleaving, crashes included, the file's versions
   are the fold of the committed mutations in lock order.  Each mutation ran on the
   version committed just before it (up to records that had lapsed by then).
   */
  lemma VersionsAreTheFold<V>(b: seq<State<V>>, acts: seq<Action<V>>, n: nat, k: nat)
    requires CleanRun(b, acts) && n < |b| && k < |b[n].log|
    ensures k + 1 < |b[n].versions| && Folds(b[n], k)
  {
    RunKeepsInv(b, acts, n);
  }

  lemma PruneIsIdentity<V>(d: Doc<V>, now: int)
    requires NeverLapses(d)
    ensures Prune(d, now) == d
  {
  }

  /** A mutation that never gives a record an expiry, such as those of the identity store. */
  ghost predicate KeepsForever<V(!new)>(op: Mutation<V>) {
    forall d: Doc<V> | NeverLapses(d) && op(d).Changed? :: NeverLapses(op(d).doc)
  }

  ghost predicate ForeverAction<V(!new)>(a: Action<V>) {
    && (a.Replace? ==> KeepsForever(a.op))
    && (a.ReplaceFails? ==> KeepsForever(a.op))
  }

  ghost predicate Forever<V>(s: State<V>) {
    && (forall k | 0 <= k < |s.versions| :: NeverLapses(s.versions[k].doc))
    && (forall k | 0 <= k < |s.log| :: NeverLapses(s.log[k].mem))
    && (forall r | 0 <= r < |s.replicas| :: NeverLapses(s.replicas[r].local.mem))
  }

  lemma StepKeepsForever<V(!new)>(s: State<V>, a: Action<V>)
    requires Enabled(s, a) && Clean(a) && ForeverAction(a) && Forever(s)
    ensures Forever(Apply(s, a))
  {
  }

  lemma {:induction false} RunKeepsForever<V(!new)>(b: seq<State<V>>, acts: seq<Action<V>>, n: nat)
    requires CleanRun(b, acts) && n < |b|
    requires forall i | 0 <= i < |acts| :: ForeverAction(acts[i])
    ensures Forever(b[n])
  {
    if n > 0 {
      hide Enabled, Apply, Forever, ForeverAction;
      RunKeepsForever(b, acts, n - 1);
      StepKeepsForever(b[n - 1], acts[n - 1]);
    }
  }

  /** For a store whose records never lapse, such as the identity store, the fold is exact. */
  lemma FoldIsExactWithoutExpiry<V(!new)>(b: seq<State<V>>, acts: seq<Action<V>>, n: nat, k: nat)
    requires CleanRun(b, acts) && n < |b| && k < |b[n].log|
    requires forall i | 0 <= i < |acts| :: ForeverAction(acts[i])
    ensures k + 1 < |b[n].versions|
    ensures b[n].log[k].op(b[n].versions[k].doc) == Changed(b[n].versions[k + 1].doc)
  {
    RunKeepsInv(b, acts, n);
    RunKeepsForever(b, acts, n);
    var s := b[n];
    var c := s.log[k];
    assert Folds(s, k) && NeverLapses(s.versions[k].doc) && NeverLapses(c.mem);
    assert NeverLapses(s.versions[k + 1].doc);
    PruneIsIdentity(s.versions[k].doc, c.at);
    PruneIsIdentity(c.mem, c.at);
    // The committed mutation is known to keep records without expiry.
    LoggedOpsAreForever(b, acts, n, k);
    PruneIsIdentity(c.op(c.mem).doc, c.at);
  }

  lemma {:induction false} LoggedOpsAreForever<V(!new)>(b: seq<State<V>>, acts: seq<Action<V>>, n: nat, k: nat)
    requires CleanRun(b, acts) && n < |b| && k < |b[n].log|
    requires forall i | 0 <= i < |acts| :: ForeverAction(acts[i])
    ensures KeepsForever(b[n].log[k].op)
  {
    if n > 0 {
      var s, a := b[n - 1], acts[n - 1];
      assert Enabled(s, a) && b[n] == Apply(s, a) && ForeverAction(a);
      if k < |s.log| {
        LoggedOpsAreForever(b, acts, n - 1, k);
        assert b[n].log[k] == s.log[k];
      }
    }
  }

  lemma StepGrows<V>(s: State<V>, a: Action<V>)
    requires Enabled(s, a)
    ensures var t := Apply(s, a);
            && s.versions <= t.versions && s.log <= t.log && |s.replicas| == |t.replicas|
            && (!a.Replace? ==> s.versions == t.versions)
  {
  }

  /** The file only ever gains versions, and only by a Replace. */
  lemma {:induction false} VersionsOnlyGrow<V>(b: seq<State<V>>, acts: seq<Action<V>>, i: nat, n: nat)
    requires CleanRun(b, acts) && i <= n < |b|
    ensures b[i].versions <= b[n].versions && b[i].log <= b[n].log
    ensures (forall k | i <= k < n :: !acts[k].Replace?) ==> b[i].versions == b[n].versions
    ensures |b[i].replicas| == |b[n].replicas|
    decreases n - i
  {
    hide Enabled, Apply, Clean, Init;
    if i < n {
      VersionsOnlyGrow(b, acts, i, n - 1);
      StepGrows(b[n - 1], acts[n - 1]);
    }
  }

  // ------------------------------------------------------------ what readers see

  lemma StepMovesForward<V>(s: State<V>, a: Action<V>, r: nat)
    requires Inv(s) && Enabled(s, a) && a != Crash(r) && r < |s.replicas|
    ensures |Apply(s, a).replicas| == |s.replicas| && s.replicas[r].base <= Apply(s, a).replicas[r].base
  {
    assert ReplicaOk(s, s.replicas[r]);
    hide Inv, ReplicaOk;
    BaseMovesForward(s, a, r);
  }

  lemma BaseMovesForward<V>(s: State<V>, a: Action<V>, r: nat)
    requires Enabled(s, a) && a != Crash(r) && r < |s.replicas| && s.replicas[r].base < |s.versions|
    ensures |Apply(s, a).replicas| == |s.replicas| && s.replicas[r].base <= Apply(s, a).replicas[r].base
  {
  }

  /** A replica's contents never go back to an older version while it stays up. */
  lemma {:induction false} ContentsNeverGoBack<V>(b: seq<State<V>>, acts: seq<Action<V>>, i: nat, n: nat, r: nat)
    requires CleanRun(b, acts) && i <= n < |b| && r < |b[i].replicas|
    requires forall k | i <= k < n :: acts[k] != Crash(r)
    ensures |b[i].replicas| == |b[n].replicas| && b[i].replicas[r].base <= b[n].replicas[r].base
    decreases n - i
  {
    if i < n {
      ContentsNeverGoBack(b, acts, i, n - 1, r);
      RunKeepsInv(b, acts, n - 1);
      StepMovesForward(b[n - 1], acts[n - 1], r);
    }
  }

  predicate StattedSince<V>(p: Replica<V>, top: nat) {
    BeforeStat(p) || (p.phase.Ready? && !p.phase.ok) || top <= p.seen
  }

  lemma StatKeepsUp<V>(s: State<V>, a: Action<V>, r: nat, top: nat)
    requires Enabled(s, a) && r < |s.replicas| && top < |s.versions| && StattedSince(s.replicas[r], top)
    ensures |Apply(s, a).replicas| == |s.replicas| && StattedSince(Apply(s, a).replicas[r], top)
  {
  }

  lemma {:induction false} StatsKeepUp<V>(b: seq<State<V>>, acts: seq<Action<V>>, i: nat, n: nat, r: nat)
    requires CleanRun(b, acts) && i <= n < |b| && r < |b[i].replicas| && |b[i].versions| > 0
    requires BeforeStat(b[i].replicas[r])
    ensures |b[i].replicas| == |b[n].replicas| && StattedSince(b[n].replicas[r], |b[i].versions| - 1)
    decreases n - i
  {
    if i < n {
      hide Enabled, Apply, StattedSince, Clean, Init;
      StatsKeepUp(b, acts, i, n - 1, r);
      VersionsOnlyGrow(b, acts, i, n - 1);
      StatKeepsUp(b[n - 1], acts[n - 1], r, |b[i].versions| - 1);
    }
  }

  /**
   A Fresh that begins after a version was committed and returns no error leaves the
   replica with that version or a newer one, although it took no lock and although
   others may commit between its stat and its read.
   */
  lemma ReadsAreFresh<V>(b: seq<State<V>>, acts: seq<Action<V>>, i: nat, n: nat, r: nat)
    requires CleanRun(b, acts) && i <= n < |b| && r < |b[i].replicas|
    requires BeforeStat(b[i].replicas[r])
    ensures |b[i].replicas| == |b[n].replicas|
    ensures var p := b[n].replicas[r];
            p.phase.Ready? && p.phase.ok ==>
              |b[i].versions| - 1 <= p.base < |b[n].versions|
              && SameLive(b[n].versions[p.base].doc, p.local.mem, b[n].now)
  {
    RunKeepsInv(b, acts, i);
    RunKeepsInv(b, acts, n);
    StatsKeepUp(b, acts, i, n, r);
    assert ReplicaOk(b[n], b[n].replicas[r]);
  }

  predicate Gone<V>(d: Doc<V>, key: string, now: int) {
    key !in d || Expired(d[key], now)
  }

  ghost predicate NeverRevives<V(!new)>(op: Mutation<V>, key: string) {
    forall d: Doc<V>, now: int {:trigger Gone(d, key, now)} :: op(d).Changed? && Gone(d, key, now) ==> Gone(op(d).doc, key, now)
  }

  ghost predicate Retains<V(!new)>(op: Mutation<V>, key: string, e: Entry<V>) {
    forall d: Doc<V> {:trigger op(d)} :: op(d).Changed? && key in d && d[key] == e ==> key in op(d).doc && op(d).doc[key] == e
  }

  lemma SameLiveMember<V>(d: Doc<V>, e: Doc<V>, key: string, now: int)
    requires SameLive(d, e, now)
    ensures Gone(d, key, now) <==> Gone(e, key, now)
    ensures !Gone(d, key, now) ==> d[key] == e[key]
  {
    assert key in Prune(d, now) <==> key in Prune(e, now);
    if !Gone(d, key, now) {
      assert Prune(d, now)[key] == Prune(e, now)[key];
    }
  }

  lemma {:induction false} GoneFromThenOn<V(!new)>(s: State<V>, key: string, k: nat, j: nat)
    requires Inv(s) && 1 <= k <= j < |s.versions|
    requires Gone(s.versions[k].doc, key, s.log[k - 1].at)
    requires forall i | k <= i < j :: NeverRevives(s.log[i].op, key)
    ensures Gone(s.versions[j].doc, key, s.log[j - 1].at)
    decreases j - k
  {
    if k < j {
      GoneFromThenOn(s, key, k, j - 1);
      assert Folds(s, j - 1) && NeverRevives(s.log[j - 1].op, key);
      SameLiveMember(s.versions[j - 1].doc, s.log[j - 1].mem, key, s.log[j - 1].at);
      assert s.log[j - 2].at <= s.log[j - 1].at;
      assert Gone(s.log[j - 1].mem, key, s.log[j - 1].at);
    }
  }

  lemma {:induction false} KeptFromThenOn<V(!new)>(s: State<V>, key: string, e: Entry<V>, k: nat, j: nat)
    requires Inv(s) && 1 <= k <= j < |s.versions| && !Expired(e, s.now)
    requires key in s.versions[k].doc && s.versions[k].doc[key] == e
    requires forall i | k <= i < j :: Retains(s.log[i].op, key, e)
    ensures key in s.versions[j].doc && s.versions[j].doc[key] == e
    decreases j - k
  {
    if k < j {
      KeptFromThenOn(s, key, e, k, j - 1);
      assert Folds(s, j - 1) && Retains(s.log[j - 1].op, key, e);
      SameLiveMember(s.versions[j - 1].doc, s.log[j - 1].mem, key, s.log[j - 1].at);
    }
  }

  /**
   Once commit k-1 has left `key` out of the file, no Fresh that begins afterwards, on
   any replica, and returns no error can yield a live record for it, as long as
   nobody commits a mutation that brings the key back.
   */
  lemma RemovedKeyIsNeverReadAgain<V(!new)>(b: seq<State<V>>, acts: seq<Action<V>>, i: nat, n: nat, r: nat, key: string)
    requires CleanRun(b, acts) && i <= n < |b| && r < |b[i].replicas|
    requires BeforeStat(b[i].replicas[r])
    requires |b[i].versions| >= 2 && |b[i].versions| == |b[i].log| + 1
    requires Gone(b[i].versions[|b[i].versions| - 1].doc, key, b[i].log[|b[i].log| - 1].at)
    requires forall k | |b[i].log| <= k < |b[n].log| :: NeverRevives(b[n].log[k].op, key)
    ensures |b[n].replicas| == |b[i].replicas|
    ensures var p := b[n].replicas[r];
            p.phase.Ready? && p.phase.ok ==> Gone(p.local.mem, key, b[n].now)
  {
    ReadsAreFresh(b, acts, i, n, r);
    VersionsOnlyGrow(b, acts, i, n);
    RunKeepsInv(b, acts, n);
    var s := b[n];
    var p := s.replicas[r];
    if p.phase.Ready? && p.phase.ok {
      var k := |b[i].versions| - 1;
      assert s.versions[k] == b[i].versions[k] && s.log[k - 1] == b[i].log[k - 1];
      GoneFromThenOn(s, key, k, p.base);
      SameLiveMember(s.versions[p.base].doc, p.local.mem, key, s.now);
    }
  }

  /**
   The other direction: a record committed to the file is found by every error-free
   Fresh that begins afterwards until it lapses or some commit drops it.
   */
  lemma CommittedKeyIsAlwaysFound<V(!new)>(b: seq<State<V>>, acts: seq<Action<V>>, i: nat, n: nat, r: nat,
                                           key: string, e: Entry<V>)
    requires CleanRun(b, acts) && i <= n < |b| && r < |b[i].replicas|
    requires BeforeStat(b[i].replicas[r])
    requires |b[i].versions| >= 2
    requires key in b[i].versions[|b[i].versions| - 1].doc && b[i].versions[|b[i].versions| - 1].doc[key] == e
    requires !Expired(e, b[n].now)
    requires forall k | |b[i].versions| - 1 <= k < |b[n].log| :: Retains(b[n].log[k].op, key, e)
    ensures |b[n].replicas| == |b[i].replicas|
    ensures var p := b[n].replicas[r];
            p.phase.Ready? && p.phase.ok ==> key in p.local.mem && p.local.mem[key] == e
  {
    ReadsAreFresh(b, acts, i, n, r);
    VersionsOnlyGrow(b, acts, i, n);
    RunKeepsInv(b, acts, n);
    var s := b[n];
    var p := s.replicas[r];
    if p.phase.Ready? && p.phase.ok {
      var k := |b[i].versions| - 1;
      assert s.versions[k] == b[i].versions[k];
      KeptFromThenOn(s, key, e, k, p.base);
      SameLiveMember(s.versions[p.base].doc, p.local.mem, key, s.now);
    }
  }

  // ------------------------------------- the steps are the guard's own methods

  /**
   What Fresh promises by itself: the recorded stamp is always the one that goes with the contents, nothing is read
   while a loaded file's stamp is unchanged, and an error leaves the replica as it was.
   */
  lemma {:induction false} FreshLoadsOnlyWhatChanged<V>(l: Local<V>, st: StatResult, rd: ReadResult<V>, now: int)
    ensures var (m, ok) := FreshSpec(l, st, rd, now);
            && (ok <==> st.NotExist? || (st.Found? && ((l.loaded && st.stamp == l.stamp) || rd.Data?)))
            && (!ok ==> m == l)
            && (ok && st.Found? && l.loaded && st.stamp == l.stamp ==> m == l)
            && (ok && st.Found? && !(l.loaded && st.stamp == l.stamp) ==> m == Local(st.stamp, true, Prune(rd.doc, now)))
            && (ok && st.NotExist? ==> m == if l.loaded then l else Local(l.stamp, true, map[]))
  {
  }

  /** A writer whose mutation is refused or changes nothing gives the lock back and touches neither file nor memory. */
  lemma {:induction false} StepsAreDeclined<V>(s: State<V>, r: nat, op: Mutation<V>, written: bool, post: StatResult)
    requires Inv(s) && r < |s.replicas| && s.replicas[r].phase.Locked? && Enabled(AfterFresh(s, r), Abandon(r, op))
    ensures var t := Apply(AfterFresh(s, r), Abandon(r, op));
            var (l, w) := WriteSpec(s.replicas[r].local, true, StatOf(s), Data(s.versions[|s.versions| - 1].doc), s.now, op, written, post);
            && t.versions == s.versions && t.log == s.log && t.holder.None?
            && l == t.replicas[r].local && w in {Declined, NothingToDo}
            && (w == NothingToDo <==> op(l.mem).Unchanged?)
  {
    var s2 := AfterFresh(s, r);
    assert s2.versions == s.versions && s2.now == s.now && s2.log == s.log;
    assert (s2.replicas[r].local, true)
        == FreshSpec(s.replicas[r].local, StatOf(s), Data(s.versions[|s.versions| - 1].doc), s.now);
  }

  /** A replica's Stat and Read steps, with anything in between, amount to one Fresh. */
  lemma StepsAreFresh<V>(s: State<V>, t: State<V>, r: nat)
    requires r < |s.replicas| && Enabled(s, Stat(r))
    requires r < |t.replicas| && |t.versions| > 0 && t.replicas[r] == Apply(s, Stat(r)).replicas[r]
    ensures var f := FreshSpec(s.replicas[r].local, StatOf(s), Data(t.versions[|t.versions| - 1].doc), t.now);
            if t.replicas[r].phase.Ready? then (t.replicas[r].local, true) == f
            else Enabled(t, Read(r)) && (Apply(t, Read(r)).replicas[r].local, true) == f
  {
  }

  ghost function AfterFresh<V>(s: State<V>, r: nat): State<V>
    requires Enabled(s, Stat(r))
  {
    var s1 := Apply(s, Stat(r));
    if s1.replicas[r].phase.Reading? then Apply(s1, Read(r)) else s1
  }

  /** Under the lock the steps of a writer amount to one Write that replaced the file with its result. */
  lemma StepsAreWrite<V>(s: State<V>, r: nat, op: Mutation<V>, stamp: Stamp)
    requires Inv(s) && r < |s.replicas| && s.replicas[r].phase.Locked?
    requires Enabled(AfterFresh(s, r), Replace(r, op, stamp))
    ensures var s3 := Apply(AfterFresh(s, r), Replace(r, op, stamp));
            var w := WriteSpec(s.replicas[r].local, true, StatOf(s), Data(s.versions[|s.versions| - 1].doc), s.now, op,
                                   true, Found(stamp));
            && Enabled(s3, PostStat(r))
            && w.1 == Replaced(s3.versions[|s.versions|].doc)
            && w.0 == Apply(s3, PostStat(r)).replicas[r].local
  {
    var s2 := AfterFresh(s, r);
    var l := s.replicas[r].local;
    assert s2.versions == s.versions && s2.now == s.now;
    assert (s2.replicas[r].local, true) == FreshSpec(l, StatOf(s), Data(s.versions[|s.versions| - 1].doc), s.now);
    assert s2.replicas[r].local.loaded;
  }

  /** After a mutation whose rename failed, memory can hold contents that no version of the file ever had. */
  lemma FailedReplaceLeavesMemoryAhead<V>(s: State<V>, r: nat, op: Mutation<V>)
    requires Inv(s) && Enabled(s, ReplaceFails(r, op)) && s.replicas[r].local.loaded
    ensures var t := Apply(s, ReplaceFails(r, op));
            && t.versions == s.versions
            && t.replicas[r].local.mem == op(s.replicas[r].local.mem).doc
            && Enabled(t, Stat(r))
            // The next Fresh sees an unchanged stamp and keeps the uncommitted contents.
            && (s.replicas[r].local.stamp == s.versions[|s.versions| - 1].stamp ==>
                  Apply(t, Stat(r)).replicas[r].phase == Ready(false, true)
                  && Apply(t, Stat(r)).replicas[r].local.mem == op(s.replicas[r].local.mem).doc)
  {
  }
}
