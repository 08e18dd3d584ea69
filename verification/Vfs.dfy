/**
 The write protocol and the trash (internal/vfs/vfs.go): any number of users write,
 remove and move files at once, step by step, and any of them may fail or crash.
 */
module Vfs {
  import opened Common
  import opened Volume

  const TRASH_DIR := ".trash"
  const TMP_PREFIX := ".upload-"

  /** The permission domain of a path: a home or a team folder. */
  function DomainRoot(p: Path): Option<Path> {
    if |p| < 2 then None
    else if p[0] != "homes" && p[0] != "teams" then None
    else if p[1] == "" || p[1] == "." || p[1] == ".." then None
    else Some(p[..2])
  }

  /** A home or a team folder and everything in it are one domain, and nothing else is in any. */
  lemma DomainsAreFolders(p: Path, q: Path)
    ensures DomainRoot(p).Some? ==> DomainRoot(p).value == p[..2] && p[0] in {"homes", "teams"} && p[1] !in {"", ".", ".."}
    ensures DomainRoot(p).None? <==> |p| < 2 || p[0] !in {"homes", "teams"} || p[1] in {"", ".", ".."}
    ensures DomainRoot(p).Some? && DomainRoot(q).Some? ==> (DomainRoot(p) == DomainRoot(q) <==> p[0] == q[0] && p[1] == q[1])
  {
    if DomainRoot(p).Some? && DomainRoot(q).Some? {
      assert p[..2] == [p[0], p[1]] && q[..2] == [q[0], q[1]];
    }
  }

  function TrashOf(domain: Path): Path { domain + [TRASH_DIR] }

  predicate IsTempName(name: string) { TMP_PREFIX <= name }

  predicate IsTemp(p: Path) { p != [] && IsTempName(p[|p| - 1]) }

  /** The test Remove makes: the parent directory is called .trash. */
  predicate InTrash(p: Path) { |p| >= 2 && p[|p| - 2] == TRASH_DIR }

  lemma TrashStaysInDomain(p: Path, name: string)
    requires DomainRoot(p).Some?
    ensures var t := TrashOf(DomainRoot(p).value) + [name];
            DomainRoot(t) == DomainRoot(p) && InTrash(t) && Parent(t) == TrashOf(DomainRoot(p).value)
            && (IsTemp(t) <==> IsTempName(name))
  {
    var d := DomainRoot(p).value;
    assert (TrashOf(d) + [name])[..2] == d;
  }

  // --------------------------------------------------------------- the protocol

  datatype Pc =
    | Copying(done: nat)
    | Synced(tries: nat)   // content is down; linkToTrash runs next
    | Linked               // linkToTrash returned nil
    | Renamed              // target replaced; the directory sync is left
    | Done(ok: bool)
    | Dead                 // crashed

  /**
   One call of Write.  `whole` records that the temp file was filled and synced, and
   `pinned` the version linkToTrash found, if there was one.
   */
  datatype Writer = Writer(target: Path, src: Bytes, tmp: Path, ino: nat, pc: Pc, whole: bool, pinned: Option<nat>)

  /** `published` and `moved` are history: what was ever bound where, and what Move touched. */
  datatype State = State(fs: Fs, writers: seq<Writer>, published: set<(Path, nat)>, moved: set<nat>)

  datatype Action =
    | Start(p: Path, src: Bytes, suffix: string)
    | Copy(w: nat, n: nat)
    | Sync(w: nat)
    | TrashLink(w: nat, name: string)
    | Replace(w: nat)
    | SyncDir(w: nat, ok: bool)
    | Fail(w: nat, cleaned: bool)
    | Crash(w: nat)
    | Remove(p: Path, name: string)
    | Empty(p: Path)
    | Move(from: Path, to: Path)
    | SweepTemp(p: Path)
    | Flush(dir: Path)       // the kernel writes a directory back on its own
    | LosePower(after: Fs)

  predicate Active(w: Writer) { w.pc.Copying? || w.pc.Synced? || w.pc.Linked? }

  function TmpOf(p: Path, suffix: string): Path { Parent(p) + [TMP_PREFIX + suffix] }

  predicate UserPath(p: Path) { DomainRoot(p).Some? && !IsTemp(p) }

  ghost predicate Enabled(s: State, a: Action) {
    match a
    case Start(p, _, suffix) =>
      && UserPath(p)
      // Random suffixes: the name is free and no earlier write used it.
      && TmpOf(p, suffix) !in s.fs.names && TmpOf(p, suffix) !in s.fs.past
      && (forall w | 0 <= w < |s.writers| :: s.writers[w].tmp != TmpOf(p, suffix))
    case Copy(w, n) => w < |s.writers| && s.writers[w].pc.Copying? && s.writers[w].pc.done <= n <= |s.writers[w].src|
    case Sync(w) => w < |s.writers| && s.writers[w].pc == Copying(|s.writers[w].src|)
    case TrashLink(w, name) => w < |s.writers| && s.writers[w].pc.Synced? && DomainRoot(s.writers[w].target).Some? && !IsTempName(name)
    case Replace(w) => w < |s.writers| && s.writers[w].pc.Linked?
    case SyncDir(w, _) => w < |s.writers| && s.writers[w].pc.Renamed?
    case Fail(w, _) => w < |s.writers| && Active(s.writers[w])
    case Crash(w) => w < |s.writers|
    case Remove(p, name) => UserPath(p) && !InTrash(p) && !IsTempName(name)
    case Empty(p) => UserPath(p) && InTrash(p)
    case Move(from, to) => UserPath(from) && UserPath(to) && DomainRoot(from) == DomainRoot(to)
    case SweepTemp(p) => IsTemp(p)
    case Flush(_) => true
    case LosePower(after) => PowerLoss(s.fs, after)
  }

  function With(s: State, w: nat, x: Writer): State
    requires w < |s.writers|
  {
    s.(writers := s.writers[w := x])
  }

  function Kill(ws: seq<Writer>): (r: seq<Writer>)
    ensures |r| == |ws|
    ensures forall i | 0 <= i < |ws| :: r[i] == ws[i].(pc := Dead)
  {
    seq(|ws|, i requires 0 <= i < |ws| => ws[i].(pc := Dead))
  }

  function TrashName(p: Path, name: string): Path
    requires DomainRoot(p).Some?
  {
    TrashOf(DomainRoot(p).value) + [name]
  }

  /** One attempt of linkToTrash's loop: nothing there is fine, a taken name is retried up to eight times. */
  function LinkStep(s: State, w: nat, name: string): State
    requires w < |s.writers| && s.writers[w].pc.Synced? && DomainRoot(s.writers[w].target).Some?
  {
    var x := s.writers[w];
    var (fs, e) := Link(s.fs, x.target, TrashName(x.target, name));
    if e.OK? then With(s, w, x.(pc := Linked, pinned := Some(s.fs.names[x.target]))).(fs := fs)
    else if e.ENOENT? then With(s, w, x.(pc := Linked, pinned := None))
    else if x.pc.tries >= 8 then With(s, w, x.(pc := Done(false))).(fs := Unlink(s.fs, x.tmp).0)
    else With(s, w, x.(pc := Synced(x.pc.tries + 1)))
  }

  ghost function Apply(s: State, a: Action): State
    requires Enabled(s, a)
  {
    match a
    case Start(p, src, suffix) =>
      var tmp := TmpOf(p, suffix);
      s.(fs := Create(s.fs, tmp).0,
         writers := s.writers + [Writer(p, src, tmp, s.fs.next, Copying(0), false, None)])
    case Copy(w, n) =>
      var x := s.writers[w];
      With(s, w, x.(pc := Copying(n))).(fs := Append(s.fs, x.ino, x.src[x.pc.done..n]))
    case Sync(w) =>
      var x := s.writers[w];
      With(s, w, x.(pc := Synced(0), whole := true)).(fs := Fsync(s.fs, x.ino))
    case TrashLink(w, name) => LinkStep(s, w, name)
    case Replace(w) =>
      var x := s.writers[w];
      var (fs, e) := Rename(s.fs, x.tmp, x.target, false);
      if e.OK? then
        With(s, w, x.(pc := Renamed)).(fs := fs, published := s.published + {(x.target, s.fs.names[x.tmp])})
      else With(s, w, x.(pc := Done(false))).(fs := Unlink(s.fs, x.tmp).0)
    case SyncDir(w, ok) =>
      var x := s.writers[w];
      With(s, w, x.(pc := Done(ok)))
        .(fs := if ok then FsyncDir(s.fs, Parent(x.target)) else Unlink(s.fs, x.tmp).0)
    case Fail(w, cleaned) =>
      var x := s.writers[w];
      With(s, w, x.(pc := Done(false))).(fs := if cleaned then Unlink(s.fs, x.tmp).0 else s.fs)
    case Crash(w) => With(s, w, s.writers[w].(pc := Dead))
    case Remove(p, name) => s.(fs := Rename(s.fs, p, TrashName(p, name), true).0)
    case Empty(p) => s.(fs := Unlink(s.fs, p).0)
    case Move(from, to) =>
      var (fs, e) := Rename(s.fs, from, to, true);
      if e.OK? then
        s.(fs := fs, published := s.published + {(to, s.fs.names[from])}, moved := s.moved + {s.fs.names[from]})
      else s
    case SweepTemp(p) => s.(fs := Unlink(s.fs, p).0)
    case Flush(dir) => s.(fs := FsyncDir(s.fs, dir))
    case LosePower(after) => s.(fs := after, writers := Kill(s.writers))
  }

  // --------------------------------------------------------------- the invariant

  /** The inode's data is complete on disk and no write is still filling it. */
  ghost predicate Sealed(s: State, i: nat) {
    && i in s.fs.inodes
    && s.fs.inodes[i].synced == |s.fs.inodes[i].data|
    && forall w | 0 <= w < |s.writers| && s.writers[w].ino == i :: !s.writers[w].pc.Copying?
  }

  ghost predicate WriterOk(s: State, w: nat)
    requires w < |s.writers|
  {
    var x := s.writers[w];
    && UserPath(x.target)
    && IsTemp(x.tmp) && Parent(x.tmp) == Parent(x.target)
    && x.ino in s.fs.inodes
    && (x.pc.Copying? ==> !x.whole && x.pc.done <= |x.src| && s.fs.inodes[x.ino].data == x.src[..x.pc.done])
    && (x.pc.Synced? || x.pc.Linked? || x.pc.Renamed? ==> x.whole)
    && (x.whole ==> s.fs.inodes[x.ino] == File(x.src, |x.src|))
    && Bound(s.fs, x.tmp) in {None, Some(x.ino)}
    && Past(s.fs, x.tmp) <= {None, Some(x.ino)}
  }

  ghost predicate WritersOk(s: State) {
    && (forall w | 0 <= w < |s.writers| :: WriterOk(s, w))
    && (forall v, w | 0 <= v < w < |s.writers| :: s.writers[v].tmp != s.writers[w].tmp && s.writers[v].ino != s.writers[w].ino)
  }

  ghost predicate RefsOk(fs: Fs) {
    && (forall p | p in fs.names :: fs.names[p] in fs.inodes)
    && (forall i | i in fs.inodes :: i < fs.next && fs.inodes[i].synced <= |fs.inodes[i].data|)
    && (forall p, i: nat | p in fs.past && Some(i) in fs.past[p] :: i in fs.inodes)
  }

  /** A name anybody asked for is only ever bound to complete data, now or after a power loss. */
  ghost predicate NamesSealed(s: State) {
    && (forall p | p in s.fs.names && !IsTemp(p) :: Sealed(s, s.fs.names[p]))
    && (forall p, i: nat | p in s.fs.past && !IsTemp(p) && Some(i) in s.fs.past[p] :: Sealed(s, i))
  }

  ghost predicate Inv(s: State) {
    RefsOk(s.fs) && WritersOk(s) && NamesSealed(s)
  }

  lemma TmpIsTemp(p: Path, suffix: string)
    ensures IsTemp(TmpOf(p, suffix)) && Parent(TmpOf(p, suffix)) == Parent(p)
  {
    var t := TmpOf(p, suffix);
    assert t[|t| - 1] == TMP_PREFIX + suffix;
  }

  lemma StartKeepsInv(s: State, a: Action)
    requires Inv(s) && Enabled(s, a) && a.Start?
    ensures Inv(Apply(s, a))
  {
    TmpIsTemp(a.p, a.suffix);
    var t := Apply(s, a);
    assert WritersOk(t) by {
      forall w | 0 <= w < |t.writers| ensures WriterOk(t, w) {
        if w < |s.writers| {
          assert WriterOk(s, w);
        } else {
          assert a.src[..0] == [];
        }
      }
      forall v, w | 0 <= v < w < |t.writers|
        ensures t.writers[v].tmp != t.writers[w].tmp && t.writers[v].ino != t.writers[w].ino
      {
        assert WriterOk(s, v);
      }
    }
    assert NamesSealed(t) by {
      forall i | Sealed(s, i) ensures Sealed(t, i) {
      }
    }
  }

  lemma FillKeepsWriters(s: State, a: Action)
    requires Inv(s) && Enabled(s, a) && (a.Copy? || a.Sync?)
    ensures WritersOk(Apply(s, a))
  {
    var t := Apply(s, a);
    var x := s.writers[a.w];
    assert WriterOk(s, a.w);
    assert x.src[..|x.src|] == x.src;
    if a.Copy? {
      assert x.src[..x.pc.done] + x.src[x.pc.done..a.n] == x.src[..a.n];
    }
    forall w | 0 <= w < |t.writers| ensures WriterOk(t, w) {
      assert WriterOk(s, w);
    }
  }

  lemma FillKeepsInv(s: State, a: Action)
    requires Inv(s) && Enabled(s, a) && (a.Copy? || a.Sync?)
    ensures Inv(Apply(s, a))
  {
    var t := Apply(s, a);
    assert WriterOk(s, a.w);
    FillKeepsWriters(s, a);
    forall i | Sealed(s, i) ensures Sealed(t, i) {
      assert i != s.writers[a.w].ino;
    }
    hide WriterOk;
  }

  /** Names move, data does not: what every step but filling a temp file and losing power does. */
  ghost predicate Tame(s: State, fs: Fs) {
    && fs.inodes == s.fs.inodes && fs.next == s.fs.next
    && (forall p | p in fs.names ::
          Bound(fs, p) == Bound(s.fs, p) || (!IsTemp(p) && Sealed(s, fs.names[p])))
    && (forall p | p in fs.past :: fs.past[p] <= Past(s.fs, p) + {Bound(s.fs, p)} + {Bound(fs, p)})
  }

  /** The same call of Write, further on. */
  predicate SameJob(x: Writer, y: Writer) {
    && y.target == x.target && y.src == x.src && y.tmp == x.tmp && y.ino == x.ino && y.whole == x.whole
    && (y.pc.Copying? ==> y.pc == x.pc)
    && (y.pc.Synced? || y.pc.Linked? || y.pc.Renamed? ==> x.whole)
  }

  ghost predicate Carried(s: State, t: State) {
    && |t.writers| == |s.writers|
    && forall w | 0 <= w < |s.writers| :: SameJob(s.writers[w], t.writers[w])
  }

  lemma SealedCarries(s: State, t: State, i: nat)
    requires Carried(s, t) && t.fs.inodes == s.fs.inodes && Sealed(s, i)
    ensures Sealed(t, i)
  {
  }

  lemma TameKeepsInv(s: State, t: State)
    requires Inv(s) && Tame(s, t.fs) && Carried(s, t)
    ensures Inv(t)
  {
    assert WritersOk(t) by {
      forall w | 0 <= w < |t.writers| ensures WriterOk(t, w) {
        assert WriterOk(s, w);
        var tmp := s.writers[w].tmp;
        assert Bound(t.fs, tmp) in {None, Bound(s.fs, tmp)};
      }
    }
    assert NamesSealed(t) by {
      forall p | p in t.fs.names && !IsTemp(p) ensures Sealed(t, t.fs.names[p]) {
        SealedCarries(s, t, t.fs.names[p]);
      }
      forall p, i: nat | p in t.fs.past && !IsTemp(p) && Some(i) in t.fs.past[p] ensures Sealed(t, i) {
        SealedCarries(s, t, i);
      }
    }
  }

  lemma UnlinkIsTame(s: State, p: Path)
    requires Inv(s)
    ensures Tame(s, Unlink(s.fs, p).0)
  {
  }

  lemma RenameIsTame(s: State, from: Path, to: Path, noreplace: bool)
    requires Inv(s) && !IsTemp(to) && (from in s.fs.names ==> Sealed(s, s.fs.names[from]))
    ensures Tame(s, Rename(s.fs, from, to, noreplace).0)
  {
    var fs1 := if from in s.fs.names then Bind(s.fs, to, s.fs.names[from]) else s.fs;
    if from in s.fs.names && from != to {
      assert Bound(fs1, from) == Bound(s.fs, from);
    }
  }

  lemma LinkIsTame(s: State, from: Path, to: Path)
    requires Inv(s) && !IsTemp(from) && !IsTemp(to)
    ensures Tame(s, Link(s.fs, from, to).0)
  {
  }

  lemma OneWriterCarries(s: State, t: State, w: nat, y: Writer)
    requires WritersOk(s) && w < |s.writers| && SameJob(s.writers[w], y)
    requires t.writers == s.writers || t.writers == s.writers[w := y]
    ensures Carried(s, t)
  {
    forall v | 0 <= v < |s.writers| ensures SameJob(s.writers[v], t.writers[v]) {
      assert WriterOk(s, v);
    }
  }

  lemma IdleWritersCarry(s: State, t: State)
    requires WritersOk(s) && t.writers == s.writers
    ensures Carried(s, t)
  {
    forall v | 0 <= v < |s.writers| ensures SameJob(s.writers[v], t.writers[v]) {
      assert WriterOk(s, v);
    }
  }

  lemma TrashLinkTame(s: State, a: Action)
    requires Inv(s) && Enabled(s, a) && a.TrashLink?
    ensures Tame(s, Apply(s, a).fs)
  {
    var x := s.writers[a.w];
    assert WriterOk(s, a.w);
    TrashStaysInDomain(x.target, a.name);
    LinkIsTame(s, x.target, TrashName(x.target, a.name));
  }

  lemma ReplaceTame(s: State, a: Action)
    requires Inv(s) && Enabled(s, a) && a.Replace?
    ensures Tame(s, Apply(s, a).fs)
  {
    var x := s.writers[a.w];
    assert WriterOk(s, a.w);
    if x.tmp in s.fs.names {
      assert Sealed(s, x.ino);
    }
    RenameIsTame(s, x.tmp, x.target, false);
  }

  lemma WriterStepTame(s: State, a: Action)
    requires Inv(s) && Enabled(s, a)
    requires a.TrashLink? || a.Replace? || a.SyncDir? || a.Fail? || a.Crash?
    ensures Tame(s, Apply(s, a).fs)
  {
    if a.TrashLink? {
      TrashLinkTame(s, a);
    } else if a.Replace? {
      ReplaceTame(s, a);
    } else {
      assert WriterOk(s, a.w);
      UnlinkIsTame(s, s.writers[a.w].tmp);
    }
  }

  lemma WriterStepKeepsInv(s: State, a: Action)
    requires Inv(s) && Enabled(s, a)
    requires a.TrashLink? || a.Replace? || a.SyncDir? || a.Fail? || a.Crash?
    ensures Inv(Apply(s, a))
  {
    var t := Apply(s, a);
    assert WriterOk(s, a.w);
    WriterStepTame(s, a);
    OneWriterCarries(s, t, a.w, t.writers[a.w]);
    TameKeepsInv(s, t);
  }

  lemma UserStepKeepsInv(s: State, a: Action)
    requires Inv(s) && Enabled(s, a)
    requires a.Remove? || a.Empty? || a.Move? || a.SweepTemp? || a.Flush?
    ensures Inv(Apply(s, a))
  {
    match a {
      case Remove(p, name) =>
        TrashStaysInDomain(p, name);
        RenameIsTame(s, p, TrashName(p, name), true);
      case Empty(p) => UnlinkIsTame(s, p);
      case Move(from, to) => RenameIsTame(s, from, to, true);
      case SweepTemp(p) => UnlinkIsTame(s, p);
      case Flush(_) =>
    }
    IdleWritersCarry(s, Apply(s, a));
    TameKeepsInv(s, Apply(s, a));
  }

  lemma PowerLossKeepsInv(s: State, a: Action)
    requires Inv(s) && Enabled(s, a) && a.LosePower?
    ensures Inv(Apply(s, a))
  {
    var t := Apply(s, a);
    assert RefsOk(t.fs) by {
      forall p | p in t.fs.names ensures t.fs.names[p] in t.fs.inodes {
        assert Bound(t.fs, p) == Bound(s.fs, p) || Bound(t.fs, p) in Past(s.fs, p);
      }
    }
    assert WritersOk(t) by {
      forall w | 0 <= w < |t.writers| ensures WriterOk(t, w) {
        assert WriterOk(s, w);
      }
    }
    forall p | p in t.fs.names && !IsTemp(p) ensures Sealed(t, t.fs.names[p]) {
      assert Bound(t.fs, p) == Bound(s.fs, p) || Bound(t.fs, p) in Past(s.fs, p);
    }
  }

  /** Every step of every user, and every failure and crash, keeps the invariant. */
  lemma StepKeepsInv(s: State, a: Action)
    requires Inv(s) && Enabled(s, a)
    ensures Inv(Apply(s, a))
  {
    match a
    case Start(_, _, _) => StartKeepsInv(s, a);
    case Copy(_, _) => FillKeepsInv(s, a);
    case Sync(_) => FillKeepsInv(s, a);
    case LosePower(_) => PowerLossKeepsInv(s, a);
    case Remove(_, _) => UserStepKeepsInv(s, a);
    case Empty(_) => UserStepKeepsInv(s, a);
    case Move(_, _) => UserStepKeepsInv(s, a);
    case SweepTemp(_) => UserStepKeepsInv(s, a);
    case Flush(_) => UserStepKeepsInv(s, a);
    case _ => WriterStepKeepsInv(s, a);
  }

  ghost predicate Run(b: seq<State>, acts: seq<Action>) {
    && |b| == |acts| + 1
    && Inv(b[0])
    && (forall i | 0 <= i < |acts| :: Enabled(b[i], acts[i]) && b[i + 1] == Apply(b[i], acts[i]))
  }

  lemma {:induction false} RunKeepsInv(b: seq<State>, acts: seq<Action>, n: nat)
    requires Run(b, acts) && n < |b|
    ensures Inv(b[n])
  {
    if n > 0 {
      RunKeepsInv(b, acts, n - 1);
      StepKeepsInv(b[n - 1], acts[n - 1]);
    }
  }

  // ------------------------------------------------------- old or new, never absent

  /** Complete data is never touched again, not even by a power loss. */
  lemma SealedStays(s: State, a: Action, i: nat)
    requires Inv(s) && Enabled(s, a) && Sealed(s, i)
    ensures Sealed(Apply(s, a), i) && Apply(s, a).fs.inodes[i] == s.fs.inodes[i]
  {
    var t := Apply(s, a);
    match a
    case Start(_, _, _) =>
    case Copy(w, _) => assert s.writers[w].ino != i;
    case Sync(w) => assert s.writers[w].ino != i;
    case LosePower(after) => assert after.inodes[i].data == s.fs.inodes[i].data;
    case _ => OtherStepsSeal(s, a, i);
  }

  lemma OtherStepsSeal(s: State, a: Action, i: nat)
    requires Enabled(s, a) && Sealed(s, i) && !a.Start? && !a.Copy? && !a.Sync? && !a.LosePower?
    ensures Sealed(Apply(s, a), i) && Apply(s, a).fs.inodes == s.fs.inodes
  {
    var t := Apply(s, a);
    assert t.fs.inodes == s.fs.inodes;
    forall w | 0 <= w < |t.writers| && t.writers[w].ino == i ensures !t.writers[w].pc.Copying? {
      assert s.writers[w].ino == i;
    }
  }

  /** The step takes the name away on purpose. */
  predicate TakesAway(a: Action, p: Path) {
    (a.Remove? && a.p == p) || (a.Empty? && a.p == p) || (a.Move? && a.from == p)
  }

  /** Inode i holds the whole source of some Write to p. */
  ghost predicate WrittenTo(s: State, p: Path, i: nat) {
    exists w :: 0 <= w < |s.writers| && s.writers[w].target == p && s.writers[w].ino == i && s.writers[w].whole
  }

  ghost predicate OldOrWritten(s: State, p: Path, old_i: nat, c: Option<nat>) {
    c.Some? && (c.value == old_i || WrittenTo(s, p, c.value))
  }

  /** p is bound to the old inode or to a completed Write's, and if it was durable, so it is after any power loss. */
  ghost predicate Settled(s: State, p: Path, old_i: nat, durable: bool) {
    && OldOrWritten(s, p, old_i, Bound(s.fs, p))
    && (durable ==> forall c | c in Past(s.fs, p) :: OldOrWritten(s, p, old_i, c))
    && Sealed(s, old_i)
  }

  lemma WriterKept(s: State, a: Action, w: nat)
    requires Enabled(s, a) && w < |s.writers|
    ensures var t := Apply(s, a);
            w < |t.writers| && t.writers[w].target == s.writers[w].target && t.writers[w].ino == s.writers[w].ino
            && (s.writers[w].whole ==> t.writers[w].whole)
  {
    hide Link, Rename, Unlink, FsyncDir, Create, Append, Fsync, PowerLoss, UserPath;
  }

  lemma WrittenStays(s: State, a: Action, p: Path, old_i: nat, c: Option<nat>)
    requires Inv(s) && Enabled(s, a) && OldOrWritten(s, p, old_i, c)
    ensures OldOrWritten(Apply(s, a), p, old_i, c)
  {
    var t := Apply(s, a);
    if c.value != old_i {
      hide Apply, Enabled, Inv;
      var w :| 0 <= w < |s.writers| && s.writers[w].target == p && s.writers[w].ino == c.value && s.writers[w].whole;
      WriterKept(s, a, w);
    }
  }

  predicate SameName(before: Fs, after: Fs, p: Path) {
    Bound(after, p) == Bound(before, p) && Past(after, p) == Past(before, p)
  }

  lemma RenameKeepsOthers(fs: Fs, from: Path, to: Path, noreplace: bool, p: Path)
    requires p != from && p in fs.names && (p != to || noreplace)
    ensures SameName(fs, Rename(fs, from, to, noreplace).0, p)
  {
  }

  lemma UnlinkKeepsOthers(fs: Fs, q: Path, p: Path)
    requires p != q
    ensures SameName(fs, Unlink(fs, q).0, p)
  {
  }

  lemma LinkKeepsOthers(fs: Fs, from: Path, to: Path, p: Path)
    requires p in fs.names
    ensures SameName(fs, Link(fs, from, to).0, p)
  {
  }

  /** A step that is not a replacement of p, and not a power loss, leaves p's binding alone. */
  lemma OtherStepsKeepName(s: State, a: Action, p: Path)
    requires Inv(s) && Enabled(s, a) && p in s.fs.names && !IsTemp(p) && !TakesAway(a, p)
    requires !a.LosePower? && !a.SyncDir? && !a.Flush? && (a.Replace? ==> s.writers[a.w].target != p)
    ensures SameName(s.fs, Apply(s, a).fs, p)
  {
    match a
    case Start(q, _, suffix) => TmpIsTemp(q, suffix);
    case TrashLink(w, name) =>
      assert WriterOk(s, w);
      UnlinkKeepsOthers(s.fs, s.writers[w].tmp, p);
      LinkKeepsOthers(s.fs, s.writers[w].target, TrashName(s.writers[w].target, name), p);
    case Replace(w) =>
      assert WriterOk(s, w);
      UnlinkKeepsOthers(s.fs, s.writers[w].tmp, p);
      RenameKeepsOthers(s.fs, s.writers[w].tmp, s.writers[w].target, false, p);
    case Fail(w, _) =>
      assert WriterOk(s, w);
      UnlinkKeepsOthers(s.fs, s.writers[w].tmp, p);
    case Remove(q, name) => RenameKeepsOthers(s.fs, q, TrashName(q, name), true, p);
    case Move(from, to) => RenameKeepsOthers(s.fs, from, to, true, p);
    case Empty(q) => UnlinkKeepsOthers(s.fs, q, p);
    case SweepTemp(q) => UnlinkKeepsOthers(s.fs, q, p);
    case _ =>
  }

  lemma ReplaceBinds(s: State, w: nat)
    requires Inv(s) && Enabled(s, Replace(w)) && s.writers[w].target in s.fs.names
    ensures var t := Apply(s, Replace(w));
            var p := s.writers[w].target;
            && Bound(t.fs, p) in {Bound(s.fs, p), Some(s.writers[w].ino)}
            && Past(t.fs, p) <= Past(s.fs, p) + {Bound(s.fs, p)}
  {
    assert WriterOk(s, w);
    UnlinkKeepsOthers(s.fs, s.writers[w].tmp, s.writers[w].target);
  }

  /** How one step may change what p is bound to. */
  lemma BindingSteps(s: State, a: Action, p: Path)
    requires Inv(s) && Enabled(s, a) && p in s.fs.names && !IsTemp(p) && !TakesAway(a, p)
    ensures var t := Apply(s, a);
            || (Bound(t.fs, p) == Bound(s.fs, p) && Past(t.fs, p) <= Past(s.fs, p) + {Bound(s.fs, p)})
            || (a.Replace? && s.writers[a.w].target == p && Bound(t.fs, p) == Some(s.writers[a.w].ino)
                && Past(t.fs, p) <= Past(s.fs, p) + {Bound(s.fs, p)})
            || (a.LosePower? && Bound(t.fs, p) in Past(s.fs, p) && Past(t.fs, p) == {})
  {
    if a.Replace? && s.writers[a.w].target == p {
      ReplaceBinds(s, a.w);
    } else if a.SyncDir? {
      assert WriterOk(s, a.w);
      UnlinkKeepsOthers(s.fs, s.writers[a.w].tmp, p);
    } else if !a.LosePower? && !a.Flush? {
      OtherStepsKeepName(s, a, p);
    }
  }

  lemma SettledStays(s: State, a: Action, p: Path, old_i: nat, durable: bool)
    requires Inv(s) && Enabled(s, a) && !IsTemp(p) && !TakesAway(a, p) && Settled(s, p, old_i, durable)
    requires a.LosePower? ==> durable
    ensures Settled(Apply(s, a), p, old_i, durable)
  {
    var t := Apply(s, a);
    BindingSteps(s, a, p);
    SealedStays(s, a, old_i);
    forall c | OldOrWritten(s, p, old_i, c) ensures OldOrWritten(t, p, old_i, c) {
      WrittenStays(s, a, p, old_i, c);
    }
    if a.Replace? && s.writers[a.w].target == p {
      var x := s.writers[a.w];
      assert WriterOk(s, a.w);
      assert t.writers[a.w].target == p && t.writers[a.w].ino == x.ino && t.writers[a.w].whole;
      assert OldOrWritten(t, p, old_i, Some(x.ino));
    }
  }

  lemma {:induction false} SettledOverRun(b: seq<State>, acts: seq<Action>, i: nat, n: nat, p: Path)
    requires Run(b, acts) && i <= n < |b| && !IsTemp(p)
    requires p in b[i].fs.names
    requires forall k | i <= k < n :: !TakesAway(acts[k], p) && (acts[k].LosePower? ==> p !in b[i].fs.past)
    ensures Settled(b[n], p, b[i].fs.names[p], p !in b[i].fs.past)
    ensures b[i].fs.names[p] in b[i].fs.inodes
    ensures b[n].fs.inodes[b[i].fs.names[p]] == b[i].fs.inodes[b[i].fs.names[p]]
    decreases n - i
  {
    hide Inv, Apply, Enabled, Settled, Sealed, TakesAway;
    var old_i := b[i].fs.names[p];
    RunKeepsInv(b, acts, i);
    SettledAtFirst(b[i], p);
    if i < n {
      SettledOverRun(b, acts, i, n - 1, p);
      RunKeepsInv(b, acts, n - 1);
      SettledIsSealed(b[n - 1], p, old_i, p !in b[i].fs.past);
      SettledStays(b[n - 1], acts[n - 1], p, old_i, p !in b[i].fs.past);
      SealedStays(b[n - 1], acts[n - 1], old_i);
    }
  }

  lemma SettledAtFirst(s: State, p: Path)
    requires Inv(s) && !IsTemp(p) && p in s.fs.names
    ensures Settled(s, p, s.fs.names[p], p !in s.fs.past) && s.fs.names[p] in s.fs.inodes
  {
    assert Sealed(s, s.fs.names[p]);
  }

  lemma SettledIsSealed(s: State, p: Path, old_i: nat, durable: bool)
    requires Settled(s, p, old_i, durable)
    ensures Sealed(s, old_i) && old_i in s.fs.inodes
  {
  }

  lemma SettledMeansOldOrNew(s: State, p: Path, old_i: nat, durable: bool)
    requires Inv(s) && Settled(s, p, old_i, durable)
    ensures p in s.fs.names && s.fs.names[p] in s.fs.inodes && old_i in s.fs.inodes
    ensures var now := s.fs.inodes[s.fs.names[p]].data;
            || now == s.fs.inodes[old_i].data
            || exists w :: 0 <= w < |s.writers| && s.writers[w].target == p && now == s.writers[w].src
  {
    var j := s.fs.names[p];
    if j != old_i {
      var w :| 0 <= w < |s.writers| && s.writers[w].target == p && s.writers[w].ino == j && s.writers[w].whole;
      assert WriterOk(s, w);
    }
  }

  /**
   For any number of interleaved writes, failures, crashes and power losses: a target that nobody
   removes or moves away keeps existing, and it always holds either its original contents or the
   whole source of one of the writes to it.  Only a power loss asks that the target was durable.
   */
  lemma OldOrNewNeverAbsent(b: seq<State>, acts: seq<Action>, i: nat, n: nat, p: Path)
    requires Run(b, acts) && i <= n < |b| && !IsTemp(p) && p in b[i].fs.names
    requires forall k | i <= k < n :: !TakesAway(acts[k], p) && (acts[k].LosePower? ==> p !in b[i].fs.past)
    ensures p in b[n].fs.names && b[n].fs.names[p] in b[n].fs.inodes && b[i].fs.names[p] in b[i].fs.inodes
    ensures var now := b[n].fs.inodes[b[n].fs.names[p]].data;
            || now == b[i].fs.inodes[b[i].fs.names[p]].data
            || exists w :: 0 <= w < |b[n].writers| && b[n].writers[w].target == p && now == b[n].writers[w].src
  {
    SettledOverRun(b, acts, i, n, p);
    RunKeepsInv(b, acts, n);
    SettledMeansOldOrNew(b[n], p, b[i].fs.names[p], p !in b[i].fs.past);
  }

  /** A Write whose last step succeeded left its target durable. */
  lemma FinishedWriteIsDurable(s: State, w: nat)
    requires Inv(s) && Enabled(s, SyncDir(w, true))
    ensures s.writers[w].target !in Apply(s, SyncDir(w, true)).fs.past
    ensures Apply(s, SyncDir(w, true)).fs.names == s.fs.names
  {
  }

  // ---------------------------------------------------- no version is ever lost

  ghost function NamesOf(s: State, i: nat): set<Path> {
    set p | p in s.fs.names && !IsTemp(p) && s.fs.names[p] == i
  }

  /** The writes that have pinned i in the trash and not yet replaced their target. */
  ghost function Pins(s: State, i: nat): set<nat> {
    set w: nat | w < |s.writers| && s.writers[w].pc.Linked? && s.writers[w].pinned == Some(i)
  }

  ghost predicate Published(s: State, i: nat) { exists p :: (p, i) in s.published }

  /** A published version has a name to spare for every write that has pinned it. */
  ghost predicate Kept(s: State, p: Path, i: nat) {
    && DomainRoot(p).Some? && !IsTemp(p) && i in s.fs.inodes
    && |NamesOf(s, i)| >= 1 + |Pins(s, i)|
    && (forall q | q in NamesOf(s, i) :: DomainRoot(q) == DomainRoot(p))
    && (i !in s.moved ==> forall q | q in NamesOf(s, i) :: q == p || Parent(q) == TrashOf(DomainRoot(p).value))
  }

  ghost predicate AllKept(s: State) {
    forall p, i | (p, i) in s.published :: Kept(s, p, i)
  }

  ghost predicate NamesPublished(s: State) {
    forall p | p in s.fs.names && !IsTemp(p) :: Published(s, s.fs.names[p])
  }

  ghost predicate WriterQuiet(s: State, x: Writer) {
    && !InTrash(x.target)
    && (Active(x) ==> !Published(s, x.ino))
    && (x.pc.Linked? && x.pinned.Some? ==> Published(s, x.pinned.value))
  }

  ghost predicate WritersQuiet(s: State) {
    forall w | 0 <= w < |s.writers| :: WriterQuiet(s, s.writers[w])
  }

  ghost predicate NothingLost(s: State) {
    AllKept(s) && NamesPublished(s) && WritersQuiet(s)
  }

  /** No user's name would be different after a power loss. */
  ghost predicate OnDisk(fs: Fs) { forall p | !IsTemp(p) :: Past(fs, p) <= {Bound(fs, p)} }

  /**
   What conservation asks of a run: nobody empties the trash or writes into it, the power
   fails only when every name is on disk, and no other write to a path, and no move onto it, lands between
   one write's link and its rename, so the rename finds the version it pinned, or nothing.
   */
  ghost predicate Quiet(s: State, a: Action)
    requires Enabled(s, a)
  {
    match a
    case Start(p, _, _) => !InTrash(p)
    case Replace(w) => Bound(s.fs, s.writers[w].target) in {None, s.writers[w].pinned}
    case Empty(_) => false
    case LosePower(_) => OnDisk(s.fs)
    case _ => true
  }

  /** Nothing that counts has changed: names of versions stay, pins can only be given up. */
  ghost predicate CountsStay(s: State, t: State) {
    && t.published == s.published && t.moved == s.moved
    && (forall p | !IsTemp(p) :: Bound(t.fs, p) == Bound(s.fs, p))
    && s.fs.inodes.Keys <= t.fs.inodes.Keys
    && |s.writers| <= |t.writers|
    && (forall w | 0 <= w < |t.writers| && t.writers[w].pc.Linked? :: w < |s.writers| && s.writers[w].pc.Linked? && t.writers[w] == s.writers[w])
    && (forall w | 0 <= w < |t.writers| :: !InTrash(t.writers[w].target))
    && (forall w | 0 <= w < |t.writers| && Active(t.writers[w]) :: !Published(s, t.writers[w].ino))
  }

  lemma CountsStayKeeps(s: State, t: State)
    requires NothingLost(s) && CountsStay(s, t)
    ensures NothingLost(t)
  {
    forall i ensures NamesOf(t, i) == NamesOf(s, i) && Pins(t, i) <= Pins(s, i) {
      forall p ensures p in NamesOf(t, i) <==> p in NamesOf(s, i) {
        if !IsTemp(p) {
          assert Bound(t.fs, p) == Bound(s.fs, p);
        }
      }
    }
    forall p, i | (p, i) in t.published ensures Kept(t, p, i) {
      assert Kept(s, p, i);
      SubsetCard(Pins(t, i), Pins(s, i));
    }
    forall p | p in t.fs.names && !IsTemp(p) ensures Published(t, t.fs.names[p]) {
      assert Bound(t.fs, p) == Bound(s.fs, p);
      assert Published(s, s.fs.names[p]);
    }
  }

  lemma {:induction false} SubsetCard<T>(a: set<T>, b: set<T>)
    requires a <= b
    ensures |a| <= |b|
    decreases a
  {
    if a != {} {
      var x :| x in a;
      SubsetCard(a - {x}, b - {x});
    }
  }

  lemma QuietStart(s: State, a: Action)
    requires Inv(s) && NothingLost(s) && Enabled(s, a) && Quiet(s, a) && a.Start?
    ensures NothingLost(Apply(s, a))
  {
    var t := Apply(s, a);
    TmpIsTemp(a.p, a.suffix);
    CountsStayKeeps(s, t);
  }

  lemma UnlinkTempKeepsNames(fs: Fs, tmp: Path)
    requires IsTemp(tmp)
    ensures forall p | !IsTemp(p) :: Bound(Unlink(fs, tmp).0, p) == Bound(fs, p)
  {
  }

  /** A step that touches one writer's bookkeeping and no name anybody asked for. */
  lemma QuietWriterStep(s: State, t: State, w: nat, y: Writer)
    requires Inv(s) && NothingLost(s) && w < |s.writers|
    requires t.published == s.published && t.moved == s.moved && t.writers == s.writers[w := y]
    requires forall p | !IsTemp(p) :: Bound(t.fs, p) == Bound(s.fs, p)
    requires s.fs.inodes.Keys <= t.fs.inodes.Keys
    requires !y.pc.Linked? && y.target == s.writers[w].target && y.ino == s.writers[w].ino
    requires Active(y) ==> Active(s.writers[w])
    ensures NothingLost(t)
  {
    CountsStayKeeps(s, t);
  }

  lemma QuietPower(s: State, a: Action)
    requires Inv(s) && NothingLost(s) && Enabled(s, a) && Quiet(s, a) && (a.Flush? || a.LosePower?)
    ensures NothingLost(Apply(s, a))
  {
    var t := Apply(s, a);
    if a.LosePower? {
      forall p | !IsTemp(p) ensures Bound(t.fs, p) == Bound(s.fs, p) {
        assert Bound(t.fs, p) == Bound(s.fs, p) || Bound(t.fs, p) in Past(s.fs, p);
      }
    }
    CountsStayKeeps(s, t);
  }

  lemma QuietIdleSteps(s: State, a: Action)
    requires Inv(s) && NothingLost(s) && Enabled(s, a) && Quiet(s, a)
    requires a.Copy? || a.Sync? || a.SyncDir? || a.Fail? || a.Crash? || a.SweepTemp? || a.Flush? || a.LosePower?
    ensures NothingLost(Apply(s, a))
  {
    var t := Apply(s, a);
    if a.SweepTemp? {
      UnlinkTempKeepsNames(s.fs, a.p);
      CountsStayKeeps(s, t);
    } else if a.Flush? || a.LosePower? {
      QuietPower(s, a);
    } else {
      assert WriterOk(s, a.w);
      UnlinkTempKeepsNames(s.fs, s.writers[a.w].tmp);
      QuietWriterStep(s, t, a.w, t.writers[a.w]);
    }
  }

  /** One name of one version becomes another. */
  lemma RenamedSet(a: set<Path>, b: set<Path>, from: Path, to: Path)
    requires from in a && to !in a && b == a - {from} + {to}
    ensures |b| == |a|
  {
  }

  lemma KeptSame(s: State, t: State, p: Path, i: nat)
    requires Kept(s, p, i) && s.fs.inodes.Keys <= t.fs.inodes.Keys && s.moved <= t.moved
    requires NamesOf(t, i) == NamesOf(s, i) && Pins(t, i) <= Pins(s, i)
    ensures Kept(t, p, i)
  {
    SubsetCard(Pins(t, i), Pins(s, i));
  }

  lemma KeptPinned(s: State, t: State, p: Path, i: nat, to: Path, w: nat)
    requires Kept(s, p, i) && s.fs.inodes.Keys <= t.fs.inodes.Keys && s.moved <= t.moved
    requires NamesOf(t, i) == NamesOf(s, i) + {to} && to !in NamesOf(s, i)
    requires Pins(t, i) == Pins(s, i) + {w}
    requires DomainRoot(to) == DomainRoot(p) && Parent(to) == TrashOf(DomainRoot(p).value)
    ensures Kept(t, p, i)
  {
  }

  /** One more name and one more pin for version j. */
  lemma QuietPinned(s: State, t: State, w: nat, to: Path, j: nat)
    requires AllKept(s) && w < |s.writers| && !s.writers[w].pc.Linked?
    requires var x := s.writers[w].target;
             && x in s.fs.names && s.fs.names[x] == j && !IsTemp(x)
             && DomainRoot(x).Some? && DomainRoot(to) == DomainRoot(x) && Parent(to) == TrashOf(DomainRoot(x).value)
    requires to !in s.fs.names && !IsTemp(to)
    requires t.published == s.published && t.moved == s.moved && t.fs.inodes == s.fs.inodes
    requires t.fs.names == s.fs.names[to := j]
    requires t.writers == s.writers[w := s.writers[w].(pc := Linked, pinned := Some(j))]
    ensures AllKept(t)
  {
    assert NamesOf(t, j) == NamesOf(s, j) + {to} && to !in NamesOf(s, j);
    assert Pins(t, j) == Pins(s, j) + {w};
    assert s.writers[w].target in NamesOf(s, j);
    forall p, i | (p, i) in t.published ensures Kept(t, p, i) {
      assert Kept(s, p, i);
      if i == j {
        KeptPinned(s, t, p, i, to, w);
      } else {
        assert NamesOf(t, i) == NamesOf(s, i) && Pins(t, i) == Pins(s, i);
        KeptSame(s, t, p, i);
      }
    }
  }

  /** linkToTrash found a version and pinned it. */
  lemma QuietPin(s: State, w: nat, name: string)
    requires Inv(s) && NothingLost(s) && Enabled(s, TrashLink(w, name))
    requires s.writers[w].target in s.fs.names && TrashName(s.writers[w].target, name) !in s.fs.names
    ensures NothingLost(LinkStep(s, w, name))
  {
    assert WriterOk(s, w);
    TrashStaysInDomain(s.writers[w].target, name);
    var t := LinkStep(s, w, name);
    var j := s.fs.names[s.writers[w].target];
    QuietPinned(s, t, w, TrashName(s.writers[w].target, name), j);
    assert Published(s, j);
    assert NamesPublished(t) by {
      forall p | p in t.fs.names && !IsTemp(p) ensures Published(t, t.fs.names[p]) {
        assert Published(s, t.fs.names[p]);
      }
    }
  }

  lemma QuietNothingToPin(s: State, w: nat, name: string)
    requires Inv(s) && NothingLost(s) && Enabled(s, TrashLink(w, name))
    requires s.writers[w].target !in s.fs.names
    ensures NothingLost(LinkStep(s, w, name))
  {
    var t := LinkStep(s, w, name);
    assert t.writers == s.writers[w := s.writers[w].(pc := Linked, pinned := None)] && t.fs == s.fs;
    forall p, i | (p, i) in t.published ensures Kept(t, p, i) {
      assert Kept(s, p, i);
      assert NamesOf(t, i) == NamesOf(s, i);
      assert Pins(t, i) == Pins(s, i);
    }
    forall p | p in t.fs.names && !IsTemp(p) ensures Published(t, t.fs.names[p]) {
      assert Published(s, t.fs.names[p]);
    }
  }

  lemma QuietLink(s: State, a: Action)
    requires Inv(s) && NothingLost(s) && Enabled(s, a) && a.TrashLink?
    ensures NothingLost(Apply(s, a))
  {
    var x := s.writers[a.w];
    assert WriterOk(s, a.w);
    if x.target !in s.fs.names {
      QuietNothingToPin(s, a.w, a.name);
    } else if TrashName(x.target, a.name) !in s.fs.names {
      QuietPin(s, a.w, a.name);
    } else {
      var t := Apply(s, a);
      UnlinkTempKeepsNames(s.fs, x.tmp);
      QuietWriterStep(s, t, a.w, t.writers[a.w]);
    }
  }

  lemma KeptRenamed(s: State, t: State, p: Path, i: nat, from: Path, to: Path)
    requires Kept(s, p, i) && s.fs.inodes.Keys <= t.fs.inodes.Keys && s.moved <= t.moved
    requires from in NamesOf(s, i) && to !in NamesOf(s, i) && NamesOf(t, i) == NamesOf(s, i) - {from} + {to}
    requires Pins(t, i) == Pins(s, i) && DomainRoot(to) == DomainRoot(from)
    requires i in t.moved || Parent(to) == TrashOf(DomainRoot(p).value)
    ensures Kept(t, p, i)
  {
    RenamedSet(NamesOf(s, i), NamesOf(t, i), from, to);
  }

  /** Remove and Move give version j a new name for an old one. */
  lemma RenameKeepsCounts(s: State, t: State, from: Path, to: Path, j: nat)
    requires AllKept(s)
    requires from in s.fs.names && s.fs.names[from] == j && !IsTemp(from) && to !in s.fs.names && !IsTemp(to)
    requires t.fs.names == s.fs.names[to := j] - {from} && t.fs.inodes == s.fs.inodes && t.writers == s.writers
    requires DomainRoot(from).Some? && DomainRoot(to) == DomainRoot(from) && s.moved <= t.moved
    requires j in t.moved || Parent(to) == TrashOf(DomainRoot(from).value)
    ensures forall p, i | (p, i) in s.published :: Kept(t, p, i)
  {
    assert from in NamesOf(s, j) && to !in NamesOf(s, j);
    assert NamesOf(t, j) == NamesOf(s, j) - {from} + {to};
    forall p, i | (p, i) in s.published ensures Kept(t, p, i) {
      assert Kept(s, p, i);
      assert Pins(t, i) == Pins(s, i);
      if i == j {
        KeptRenamed(s, t, p, i, from, to);
      } else {
        assert NamesOf(t, i) == NamesOf(s, i);
        KeptSame(s, t, p, i);
      }
    }
  }

  lemma RenameKeepsPublished(s: State, t: State, from: Path, to: Path, j: nat)
    requires NamesPublished(s) && WritersQuiet(s) && t.writers == s.writers
    requires from in s.fs.names && s.fs.names[from] == j && !IsTemp(from)
    requires t.fs.names == s.fs.names[to := j] - {from}
    requires t.published == s.published + {(to, j)} || t.published == s.published
    ensures NamesPublished(t) && WritersQuiet(t)
  {
    assert Published(s, j);
    forall i: nat | Published(s, i) ensures Published(t, i) {
      var p :| (p, i) in s.published;
      assert (p, i) in t.published;
    }
    forall p | p in t.fs.names && !IsTemp(p) ensures Published(t, t.fs.names[p]) {
      if p != to {
        assert Published(s, s.fs.names[p]);
      }
    }
    forall w | 0 <= w < |t.writers| ensures WriterQuiet(t, t.writers[w]) {
      assert WriterQuiet(s, s.writers[w]);
    }
  }

  lemma MovedIsKept(s: State, t: State, from: Path, to: Path, j: nat)
    requires NamesPublished(s) && from in s.fs.names && s.fs.names[from] == j && !IsTemp(from)
    requires AllKept(s) && (forall p, i | (p, i) in s.published :: Kept(t, p, i))
    requires to in NamesOf(t, j) && !IsTemp(to) && DomainRoot(to).Some? && j in t.moved
    ensures Kept(t, to, j)
  {
    assert Published(s, j);
    var q :| (q, j) in s.published;
    assert Kept(t, q, j);
  }

  lemma QuietRemove(s: State, a: Action)
    requires Inv(s) && NothingLost(s) && Enabled(s, a) && a.Remove?
    ensures NothingLost(Apply(s, a))
  {
    var t := Apply(s, a);
    TrashStaysInDomain(a.p, a.name);
    var to := TrashName(a.p, a.name);
    if a.p in s.fs.names && to !in s.fs.names {
      var j := s.fs.names[a.p];
      assert s.fs.names[to := j] - {a.p} == t.fs.names;
      RenameKeepsCounts(s, t, a.p, to, j);
      RenameKeepsPublished(s, t, a.p, to, j);
    } else {
      assert t == s;
    }
  }

  lemma QuietMove(s: State, a: Action)
    requires Inv(s) && NothingLost(s) && Enabled(s, a) && a.Move?
    ensures NothingLost(Apply(s, a))
  {
    var t := Apply(s, a);
    if a.from in s.fs.names && a.to !in s.fs.names {
      var j := s.fs.names[a.from];
      assert s.fs.names[a.to := j] - {a.from} == t.fs.names;
      RenameKeepsCounts(s, t, a.from, a.to, j);
      RenameKeepsPublished(s, t, a.from, a.to, j);
      assert a.to in NamesOf(t, j);
      MovedIsKept(s, t, a.from, a.to, j);
      assert t.published == s.published + {(a.to, j)};
    } else {
      assert t == s;
    }
  }

  lemma KeptReplaced(s: State, t: State, q: Path, i: nat, p: Path, w: nat)
    requires Kept(s, q, i) && s.fs.inodes.Keys <= t.fs.inodes.Keys && s.moved <= t.moved
    requires p in NamesOf(s, i) && NamesOf(t, i) == NamesOf(s, i) - {p}
    requires w in Pins(s, i) && Pins(t, i) == Pins(s, i) - {w}
    ensures Kept(t, q, i)
  {
  }

  /** The replaced version gives up one name and the write gives up its pin. */
  lemma ReplaceKeepsCounts(s: State, t: State, w: nat, p: Path, j: nat)
    requires AllKept(s) && NamesPublished(s) && WritersQuiet(s)
    requires w < |s.writers| && s.writers[w].pc.Linked? && s.writers[w].target == p && !IsTemp(p)
    requires !Published(s, j) && j in s.fs.inodes && DomainRoot(p).Some?
    requires Bound(s.fs, p) in {None, s.writers[w].pinned}
    requires t.fs.inodes == s.fs.inodes && t.moved == s.moved
    requires forall q | !IsTemp(q) && q != p :: Bound(t.fs, q) == Bound(s.fs, q)
    requires Bound(t.fs, p) == Some(j)
    requires t.writers == s.writers[w := s.writers[w].(pc := Renamed)]
    ensures forall q, i | (q, i) in s.published :: Kept(t, q, i)
    ensures Kept(t, p, j)
  {
    forall q ensures q in NamesOf(t, j) <==> q == p {
      if !IsTemp(q) && q != p {
        assert Bound(t.fs, q) == Bound(s.fs, q);
      }
    }
    assert NamesOf(t, j) == {p};
    assert Pins(t, j) == {};
    forall q, i | (q, i) in s.published ensures Kept(t, q, i) {
      assert Kept(s, q, i) && Published(s, i);
      assert Pins(t, i) == Pins(s, i) - {w};
      forall r ensures r in NamesOf(t, i) <==> r in NamesOf(s, i) && r != p {
        if !IsTemp(r) && r != p {
          assert Bound(t.fs, r) == Bound(s.fs, r);
        }
      }
      if Bound(s.fs, p) == Some(i) {
        assert NamesOf(t, i) == NamesOf(s, i) - {p};
        KeptReplaced(s, t, q, i, p, w);
      } else {
        assert NamesOf(t, i) == NamesOf(s, i);
        KeptSame(s, t, q, i);
      }
    }
  }

  lemma ReplaceKeepsPublished(s: State, t: State, w: nat, p: Path, j: nat)
    requires NamesPublished(s) && WritersQuiet(s) && w < |s.writers|
    requires forall q | !IsTemp(q) && q != p :: Bound(t.fs, q) == Bound(s.fs, q)
    requires Bound(t.fs, p) == Some(j) && t.published == s.published + {(p, j)}
    requires t.writers == s.writers[w := s.writers[w].(pc := Renamed)]
    requires forall v | 0 <= v < |s.writers| && v != w :: s.writers[v].ino != j
    ensures NamesPublished(t) && WritersQuiet(t)
  {
    assert (p, j) in t.published;
    forall i: nat | Published(s, i) ensures Published(t, i) {
      var q :| (q, i) in s.published;
      assert (q, i) in t.published;
    }
    forall q | q in t.fs.names && !IsTemp(q) ensures Published(t, t.fs.names[q]) {
      if q != p {
        assert Bound(t.fs, q) == Bound(s.fs, q);
        assert Published(s, s.fs.names[q]);
      }
    }
    forall v | 0 <= v < |t.writers| ensures WriterQuiet(t, t.writers[v]) {
      assert WriterQuiet(s, s.writers[v]);
    }
  }

  /** What a rename whose temp file is still there does, and what it finds. */
  lemma QuietReplaceEffect(s: State, w: nat)
    requires Inv(s) && NothingLost(s) && Enabled(s, Replace(w)) && Quiet(s, Replace(w)) && s.writers[w].tmp in s.fs.names
    ensures var t, x := Apply(s, Replace(w)), s.writers[w];
            && x.pc.Linked? && !IsTemp(x.target) && !Published(s, x.ino) && x.ino in s.fs.inodes && DomainRoot(x.target).Some?
            && Bound(s.fs, x.target) in {None, x.pinned} && t.fs.inodes == s.fs.inodes && t.moved == s.moved
            && (forall q | !IsTemp(q) && q != x.target :: Bound(t.fs, q) == Bound(s.fs, q))
            && Bound(t.fs, x.target) == Some(x.ino) && t.published == s.published + {(x.target, x.ino)}
            && t.writers == s.writers[w := x.(pc := Renamed)]
            && (forall v | 0 <= v < |s.writers| && v != w :: s.writers[v].ino != x.ino)
  {
    var x := s.writers[w];
    assert WriterOk(s, w) && WriterQuiet(s, x);
    assert s.fs.names[x.tmp] == x.ino;
    if x.target in s.fs.names {
      assert Published(s, s.fs.names[x.target]);
    }
  }

  lemma QuietReplace(s: State, a: Action)
    requires Inv(s) && NothingLost(s) && Enabled(s, a) && a.Replace? && Quiet(s, a)
    ensures NothingLost(Apply(s, a))
  {
    if s.writers[a.w].tmp in s.fs.names {
      var t, x := Apply(s, a), s.writers[a.w];
      QuietReplaceEffect(s, a.w);
      hide Apply, Inv, Quiet, AllKept, NamesPublished, WritersQuiet, Published;
      ReplaceKeepsCounts(s, t, a.w, x.target, x.ino);
      ReplaceKeepsPublished(s, t, a.w, x.target, x.ino);
    } else {
      QuietReplaceFails(s, a);
    }
  }

  lemma QuietReplaceFails(s: State, a: Action)
    requires Inv(s) && NothingLost(s) && Enabled(s, a) && a.Replace? && s.writers[a.w].tmp !in s.fs.names
    ensures NothingLost(Apply(s, a))
  {
    var t, x := Apply(s, a), s.writers[a.w];
    assert WriterOk(s, a.w) && WriterQuiet(s, x);
    UnlinkTempKeepsNames(s.fs, x.tmp);
    QuietWriterStep(s, t, a.w, t.writers[a.w]);
  }

  lemma QuietStepLosesNothing(s: State, a: Action)
    requires Inv(s) && NothingLost(s) && Enabled(s, a) && Quiet(s, a)
    ensures NothingLost(Apply(s, a))
  {
    match a
    case Start(_, _, _) => QuietStart(s, a);
    case TrashLink(_, _) => QuietLink(s, a);
    case Replace(_) => QuietReplace(s, a);
    case Remove(_, _) => QuietRemove(s, a);
    case Move(_, _) => QuietMove(s, a);
    case _ => QuietIdleSteps(s, a);
  }

  /**
   A server that has just started on some tree.  Everything it finds counts as
   published; an inode with several names has one outside its domain's trash at most.
   */
  ghost predicate Init(s: State) {
    && Inv(s) && s.writers == [] && s.moved == {} && NamesPublished(s)
    && forall p, i | (p, i) in s.published ::
         && UserPath(p) && Bound(s.fs, p) == Some(i)
         && forall q | q in NamesOf(s, i) ::
              DomainRoot(q) == DomainRoot(p) && (q == p || Parent(q) == TrashOf(DomainRoot(p).value))
  }

  lemma InitLostNothing(s: State)
    requires Init(s)
    ensures NothingLost(s)
  {
    forall p, i | (p, i) in s.published ensures Kept(s, p, i) {
      assert p in NamesOf(s, i);
      assert Pins(s, i) == {};
    }
  }

  /**
   Conservation: in a quiet run every version ever published at a path keeps a name
   in the same permission domain, and one that Move never touched is still at that
   path or in the domain's trash.
   */
  lemma {:induction false} EveryVersionStaysReachable(b: seq<State>, acts: seq<Action>, n: nat)
    requires Run(b, acts) && n < |b| && Init(b[0])
    requires forall i | 0 <= i < |acts| :: Quiet(b[i], acts[i])
    ensures NothingLost(b[n])
    ensures forall p, i | (p, i) in b[n].published ::
              exists q :: q in b[n].fs.names && b[n].fs.names[q] == i && !IsTemp(q) && DomainRoot(q) == DomainRoot(p)
                          && (i in b[n].moved || q == p || Parent(q) == TrashOf(DomainRoot(p).value))
  {
    if n == 0 {
      InitLostNothing(b[0]);
    } else {
      EveryVersionStaysReachable(b, acts, n - 1);
      RunKeepsInv(b, acts, n - 1);
      QuietStepLosesNothing(b[n - 1], acts[n - 1]);
    }
    ReachableFromCounts(b[n]);
  }

  lemma ReachableFromCounts(s: State)
    requires NothingLost(s)
    ensures forall p, i | (p, i) in s.published ::
              exists q :: q in s.fs.names && s.fs.names[q] == i && !IsTemp(q) && DomainRoot(q) == DomainRoot(p)
                          && (i in s.moved || q == p || Parent(q) == TrashOf(DomainRoot(p).value))
  {
    forall p, i | (p, i) in s.published
      ensures exists q :: q in s.fs.names && s.fs.names[q] == i && !IsTemp(q) && DomainRoot(q) == DomainRoot(p)
                          && (i in s.moved || q == p || Parent(q) == TrashOf(DomainRoot(p).value))
    {
      assert Kept(s, p, i);
      var q :| q in NamesOf(s, i);
    }
  }

  /**
   Nothing but emptying the trash, moving an entry out or writing into it changes a trash entry, nor
   does a power loss once the entry is on disk.
   */
  lemma TrashEntriesAreNeverReplaced(s: State, a: Action, p: Path)
    requires Inv(s) && Enabled(s, a) && InTrash(p) && p in s.fs.names && !IsTemp(p) && !TakesAway(a, p)
    requires a.LosePower? ==> Past(s.fs, p) <= {Bound(s.fs, p)}
    requires a.Replace? ==> !InTrash(s.writers[a.w].target)
    ensures Bound(Apply(s, a).fs, p) == Bound(s.fs, p)
    ensures p in Apply(s, a).fs.names && Apply(s, a).fs.inodes[s.fs.names[p]] == s.fs.inodes[s.fs.names[p]]
  {
    BindingSteps(s, a, p);
    SealedStays(s, a, s.fs.names[p]);
  }

  // ------------------------------------------------- what a power loss can take

  /** Some name outside the temp files still leads to the version. */
  ghost predicate Reachable(fs: Fs, i: nat) { exists p :: !IsTemp(p) && Bound(fs, p) == Some(i) }

  ghost predicate SurvivesPowerLoss(fs: Fs, i: nat) {
    forall after | PowerLoss(fs, after) :: Reachable(after, i)
  }

  /** A name of the version that cannot fall back to anything else. */
  ghost predicate Anchored(fs: Fs, p: Path, i: nat) {
    !IsTemp(p) && Bound(fs, p) == Some(i) && Past(fs, p) <= {Some(i)}
  }

  ghost predicate CanFallBack(fs: Fs, p: Path, i: nat) {
    !IsTemp(p) && Bound(fs, p) == Some(i) && exists c :: c in Past(fs, p) && c != Some(i)
  }

  ghost function FallBack(fs: Fs, p: Path, i: nat): (c: Option<nat>)
    ensures if CanFallBack(fs, p, i) then c in Past(fs, p) && c != Some(i) else c == Bound(fs, p)
  {
    if CanFallBack(fs, p, i) then
      var c :| c in Past(fs, p) && c != Some(i);
      c
    else Bound(fs, p)
  }

  /** The power loss that hits version i hardest: each of its names falls back if it can. */
  ghost function Worst(fs: Fs, i: nat): Fs {
    Fs(map p | p in fs.names && FallBack(fs, p, i).Some? :: FallBack(fs, p, i).value,
       map j | j in fs.inodes :: File(fs.inodes[j].data, |fs.inodes[j].data|), fs.next, map[])
  }

  lemma WorstIsAPowerLoss(fs: Fs, i: nat)
    requires RefsOk(fs)
    ensures PowerLoss(fs, Worst(fs, i)) && forall p :: Bound(Worst(fs, i), p) == FallBack(fs, p, i)
  {
    var after := Worst(fs, i);
    forall p ensures Bound(after, p) == FallBack(fs, p, i) {
    }
  }

  /** A version survives every power loss exactly if one of its names can fall back to nothing else. */
  lemma SurvivesIffAnchored(fs: Fs, i: nat)
    requires RefsOk(fs)
    ensures SurvivesPowerLoss(fs, i) <==> exists p :: Anchored(fs, p, i)
  {
    if p :| Anchored(fs, p, i) {
      forall after | PowerLoss(fs, after) ensures Reachable(after, i) {
        assert Bound(after, p) == Some(i);
      }
    } else {
      WorstIsAPowerLoss(fs, i);
      forall p | !IsTemp(p) ensures Bound(Worst(fs, i), p) != Some(i) {
        if Bound(fs, p) == Some(i) {
          assert !Anchored(fs, p, i);
          assert CanFallBack(fs, p, i);
        }
      }
      assert !Reachable(Worst(fs, i), i);
    }
  }

  /** The steps of a Write from its link to its directory sync, with nothing in between. */
  ghost function Overwritten(s: State, w: nat, name: string): State
    requires w < |s.writers| && s.writers[w].pc.Synced? && DomainRoot(s.writers[w].target).Some? && !IsTempName(name)
  {
    var t := LinkStep(s, w, name);
    if !t.writers[w].pc.Linked? then t
    else
      var u := Apply(t, Replace(w));
      if u.writers[w].pc.Renamed? then Apply(u, SyncDir(w, true)) else u
  }

  /** A Write about to pin the version i that its target is the only name of, under a free trash name. */
  ghost predicate AboutToReplace(s: State, w: nat, name: string, i: nat) {
    && w < |s.writers| && s.writers[w].pc.Synced? && !IsTempName(name)
    && var x := s.writers[w];
       && DomainRoot(x.target).Some? && !InTrash(x.target) && NamesOf(s, i) == {x.target} && x.ino != i
       && Bound(s.fs, x.tmp) == Some(x.ino) && TrashName(x.target, name) !in s.fs.names
  }

  lemma NotBesideTrash(p: Path, domain: Path)
    requires |p| >= 2 && !InTrash(p)
    ensures Parent(p) != TrashOf(domain)
  {
    assert Parent(p)[|p| - 2] == p[|p| - 2] && TrashOf(domain)[|domain|] == TRASH_DIR;
  }

  lemma PinAndReplace(s: State, w: nat, name: string, i: nat)
    requires Inv(s) && AboutToReplace(s, w, name, i)
    ensures var x, pin := s.writers[w], TrashName(s.writers[w].target, name);
            var t := Overwritten(s, w, name);
            t.writers[w].pc == Done(true)
            && t.fs.names == s.fs.names[pin := i][x.target := x.ino] - {x.tmp}
            && None in Past(t.fs, pin) && x.target !in t.fs.past
  {
    var x, pin := s.writers[w], TrashName(s.writers[w].target, name);
    PinStep(s, w, name, i);
    var t := LinkStep(s, w, name);
    RenameStep(t, w);
    NotBesideTrash(x.target, DomainRoot(x.target).value);
  }

  lemma PinStep(s: State, w: nat, name: string, i: nat)
    requires Inv(s) && AboutToReplace(s, w, name, i)
    ensures var x, pin := s.writers[w], TrashName(s.writers[w].target, name);
            var t := LinkStep(s, w, name);
            t.fs == Bind(s.fs, pin, i) && None in Past(t.fs, pin) && t.writers == s.writers[w := t.writers[w]]
            && t.writers[w] == x.(pc := Linked, pinned := Some(i)) && pin != x.tmp && pin != x.target && !IsTemp(pin)
            && x.tmp != x.target && Parent(pin) == TrashOf(DomainRoot(x.target).value)
  {
    var x := s.writers[w];
    assert WriterOk(s, w) && x.target in NamesOf(s, i);
    TrashStaysInDomain(x.target, name);
  }

  lemma RenameStep(t: State, w: nat)
    requires w < |t.writers| && t.writers[w].pc.Linked? && t.writers[w].tmp != t.writers[w].target
    requires Bound(t.fs, t.writers[w].tmp) == Some(t.writers[w].ino) && Bound(t.fs, t.writers[w].target) != Some(t.writers[w].ino)
    ensures var x := t.writers[w];
            var u := Apply(t, Replace(w));
            u.fs == Unbind(Bind(t.fs, x.target, x.ino), x.tmp) && u.writers == t.writers[w := x.(pc := Renamed)]
  {
  }

  /**
   The trash is never synced: after an overwrite that succeeded, the replaced version has one name left, and
   there is a power loss that takes it, even if the version was safe from every power loss before.
   */
  lemma OverwriteEndangersTheOldVersion(s: State, w: nat, name: string, i: nat)
    requires Inv(s) && AboutToReplace(s, w, name, i)
    ensures var t := Overwritten(s, w, name);
            t.writers[w].pc == Done(true) && Reachable(t.fs, i) && !SurvivesPowerLoss(t.fs, i)
    ensures SurvivesPowerLoss(s.fs, i) <==> Past(s.fs, s.writers[w].target) <= {Some(i)}
  {
    var x, pin := s.writers[w], TrashName(s.writers[w].target, name);
    var t := Overwritten(s, w, name);
    PinAndReplace(s, w, name, i);
    TrashStaysInDomain(x.target, name);
    assert WriterOk(s, w);
    assert x.target in NamesOf(s, i) && Bound(t.fs, pin) == Some(i);
    OverwrittenKeepsInv(s, w, name, i);
    SurvivesIffAnchored(t.fs, i);
    forall p | !IsTemp(p) && Bound(t.fs, p) == Some(i) ensures p == pin {
      assert p in NamesOf(s, i) || p == pin;
    }
    SurvivesIffAnchored(s.fs, i);
    if p :| Anchored(s.fs, p, i) {
      assert p in NamesOf(s, i);
    }
    assert Past(s.fs, x.target) <= {Some(i)} ==> Anchored(s.fs, x.target, i);
  }

  lemma OverwrittenKeepsInv(s: State, w: nat, name: string, i: nat)
    requires Inv(s) && AboutToReplace(s, w, name, i)
    ensures Inv(Overwritten(s, w, name))
  {
    PinAndReplace(s, w, name, i);
    var t := LinkStep(s, w, name);
    StepKeepsInv(s, TrashLink(w, name));
    assert t == Apply(s, TrashLink(w, name));
    if t.writers[w].pc.Linked? {
      StepKeepsInv(t, Replace(w));
      var u := Apply(t, Replace(w));
      if u.writers[w].pc.Renamed? {
        StepKeepsInv(u, SyncDir(w, true));
      }
    }
  }

  // ------------------------- the condition is needed: two writers, or a writer and a move

  lemma ReplaceOutcome(s: State, w: nat)
    requires Enabled(s, Replace(w)) && s.writers[w].tmp in s.fs.names && s.writers[w].tmp != s.writers[w].target
    requires Bound(s.fs, s.writers[w].target) != Some(s.fs.names[s.writers[w].tmp])
    ensures var t := Apply(s, Replace(w));
            var x := s.writers[w];
            var i := s.fs.names[x.tmp];
            && t.fs.names == s.fs.names[x.target := i] - {x.tmp}
            && t.writers == s.writers[w := x.(pc := Renamed)]
            && t.published == s.published + {(x.target, i)}
  {
  }

  lemma OnlyName(s: State, t: State, p: Path, tmp: Path, i: nat)
    requires NamesPublished(s) && !Published(s, i) && !IsTemp(p) && IsTemp(tmp)
    requires t.fs.names == s.fs.names[p := i] - {tmp}
    ensures NamesOf(t, i) == {p}
  {
    forall q ensures q in NamesOf(t, i) <==> q == p {
      if q in s.fs.names && !IsTemp(q) {
        assert Published(s, s.fs.names[q]);
      }
    }
  }

  lemma FirstReplace(s: State, v: nat, w: nat)
    requires Inv(s) && NothingLost(s) && v < |s.writers| && w < |s.writers| && v != w
    requires s.writers[v].pc.Linked? && s.writers[w].pc.Linked?
    requires s.writers[v].tmp in s.fs.names && s.writers[w].tmp in s.fs.names
    ensures var t := Apply(s, Replace(v));
            var p, i, j := s.writers[v].target, s.writers[v].ino, s.writers[w].ino;
            && |t.writers| == |s.writers| && t.writers[w] == s.writers[w] && i != j && (p, i) in t.published
            && Bound(t.fs, s.writers[w].tmp) == Some(j)
            && NamesOf(t, i) == {p}
  {
    var p, i, j := s.writers[v].target, s.writers[v].ino, s.writers[w].ino;
    assert WriterOk(s, v) && WriterOk(s, w) && WriterQuiet(s, s.writers[v]);
    assert s.writers[v].tmp != s.writers[w].tmp && i != j;
    assert !Published(s, i) && s.fs.names[s.writers[v].tmp] == i;
    if p in s.fs.names {
      assert Published(s, s.fs.names[p]);
    }
    ReplaceOutcome(s, v);
    OnlyName(s, Apply(s, Replace(v)), p, s.writers[v].tmp, i);
  }

  lemma SecondReplace(t: State, w: nat, i: nat)
    requires Inv(t) && w < |t.writers| && t.writers[w].pc.Linked? && t.writers[w].ino != i
    requires Bound(t.fs, t.writers[w].tmp) == Some(t.writers[w].ino) && NamesOf(t, i) == {t.writers[w].target}
    ensures NamesOf(Apply(t, Replace(w)), i) == {}
  {
    var p := t.writers[w].target;
    assert WriterOk(t, w);
    assert p in NamesOf(t, i);
    ReplaceOutcome(t, w);
    var u := Apply(t, Replace(w));
    forall q ensures q !in NamesOf(u, i) {
      if q != p && q in u.fs.names && u.fs.names[q] == i {
        assert q in t.fs.names && t.fs.names[q] == i && q !in NamesOf(t, i);
      }
    }
  }

  /** The second of two writes that both linked before either renamed destroys the first one's version. */
  lemma OverlapLosesMiddleVersion(s: State, v: nat, w: nat)
    requires Inv(s) && NothingLost(s) && v < |s.writers| && w < |s.writers| && v != w
    requires s.writers[v].pc.Linked? && s.writers[w].pc.Linked? && s.writers[v].target == s.writers[w].target
    requires s.writers[v].tmp in s.fs.names && s.writers[w].tmp in s.fs.names
    ensures var t := Apply(s, Replace(v));
            && Enabled(t, Replace(w)) && !Quiet(t, Replace(w))
            && var u := Apply(t, Replace(w));
               (s.writers[v].target, s.writers[v].ino) in u.published && NamesOf(u, s.writers[v].ino) == {}
  {
    var t := Apply(s, Replace(v));
    FirstReplace(s, v, w);
    StepKeepsInv(s, Replace(v));
    assert s.writers[v].target in NamesOf(t, s.writers[v].ino);
    assert WriterQuiet(s, s.writers[w]) && WriterQuiet(s, s.writers[v]);
    SecondReplace(t, w, s.writers[v].ino);
  }

  lemma MovedOnto(s: State, from: Path, to: Path, i: nat)
    requires UserPath(from) && UserPath(to) && DomainRoot(from) == DomainRoot(to) && to !in s.fs.names && NamesOf(s, i) == {from}
    ensures var t := Apply(s, Move(from, to));
            && from in s.fs.names && s.fs.names[from] == i && from != to
            && t.fs.names == s.fs.names[to := i] - {from} && t.writers == s.writers && (to, i) in t.published
            && NamesOf(t, i) == {to}
  {
    assert from in NamesOf(s, i);
    var t := Apply(s, Move(from, to));
    forall q ensures q in NamesOf(t, i) <==> q == to {
      assert q in NamesOf(s, i) <==> q == from;
    }
  }

  /**
   One write and one Move do the same: the write's link finds nothing to pin, the Move, which restores a trash
   entry for instance, brings a version onto the target, and the rename destroys that version's only name.
   */
  lemma MoveOntoTargetLosesVersion(s: State, w: nat, from: Path, i: nat)
    requires Inv(s) && Enabled(s, Replace(w)) && s.writers[w].tmp in s.fs.names && s.writers[w].ino != i
    requires s.writers[w].pinned == None && Enabled(s, Move(from, s.writers[w].target))
    requires s.writers[w].target !in s.fs.names && NamesOf(s, i) == {from}
    ensures var p, t := s.writers[w].target, Apply(s, Move(from, s.writers[w].target));
            && Enabled(t, Replace(w)) && !Quiet(t, Replace(w))
            && var u := Apply(t, Replace(w));
               (p, i) in u.published && NamesOf(u, i) == {}
  {
    var x := s.writers[w];
    assert WriterOk(s, w);
    MovedOnto(s, from, x.target, i);
    StepKeepsInv(s, Move(from, x.target));
    SecondReplace(Apply(s, Move(from, x.target)), w, i);
  }

  /** A rename leaves the version it replaces without a name exactly if the target was its only one. */
  lemma ReplaceUnnamesIffOnlyName(s: State, w: nat, i: nat)
    requires Inv(s) && Enabled(s, Replace(w)) && s.writers[w].tmp in s.fs.names
    requires Bound(s.fs, s.writers[w].target) == Some(i) && s.writers[w].ino != i
    ensures NamesOf(Apply(s, Replace(w)), i) == NamesOf(s, i) - {s.writers[w].target}
    ensures NamesOf(Apply(s, Replace(w)), i) == {} <==> NamesOf(s, i) == {s.writers[w].target}
  {
    var p := s.writers[w].target;
    assert WriterOk(s, w);
    ReplaceOutcome(s, w);
    var t := Apply(s, Replace(w));
    forall q ensures q in NamesOf(t, i) <==> q in NamesOf(s, i) && q != p {
    }
    assert p in NamesOf(s, i);
  }

  const HOME_FILE: Path := ["homes", "ann", "f"]
  const TMP_A: Path := ["homes", "ann", ".upload-a"]
  const TMP_B: Path := ["homes", "ann", ".upload-b"]

  const NOTHING := File([], 0)
  const WRITER_A := Writer(HOME_FILE, [], TMP_A, 0, Copying(0), false, None)
  const WRITER_B := Writer(HOME_FILE, [], TMP_B, 1, Copying(0), false, None)

  function Nobody(): State { State(Fs(map[], map[], 0, map[]), [], {}, {}) }

  function OneWriter(): State {
    State(Fs(map[TMP_A := 0], map[0 := NOTHING], 1, map[TMP_A := {None}]), [WRITER_A], {}, {})
  }

  function TwoWriters(a: Pc, b: Pc): State {
    State(Fs(map[TMP_A := 0, TMP_B := 1], map[0 := NOTHING, 1 := NOTHING], 2, map[TMP_A := {None}, TMP_B := {None}]),
          [WRITER_A.(pc := a, whole := !a.Copying?), WRITER_B.(pc := b, whole := !b.Copying?)], {}, {})
  }

  lemma TempPaths()
    ensures UserPath(HOME_FILE) && !InTrash(HOME_FILE)
    ensures TmpOf(HOME_FILE, "a") == TMP_A && TmpOf(HOME_FILE, "b") == TMP_B
    ensures TMP_A != TMP_B && HOME_FILE != TMP_A && HOME_FILE != TMP_B
  {
    assert TMP_PREFIX + "a" == ".upload-a" && TMP_PREFIX + "b" == ".upload-b";
    assert HOME_FILE[..2] + [".upload-a"] == TMP_A && HOME_FILE[..2] + [".upload-b"] == TMP_B;
    assert TMP_A[2][8] != TMP_B[2][8] && HOME_FILE[2][0] != TMP_A[2][0] && HOME_FILE[2][0] != TMP_B[2][0];
  }

  lemma StartFirst()
    ensures Enabled(Nobody(), Start(HOME_FILE, [], "a")) && Apply(Nobody(), Start(HOME_FILE, [], "a")) == OneWriter()
  {
    TempPaths();
    var fs0 := Nobody().fs;
    var fs := Create(fs0, TMP_A).0;
    assert Past(fs0, TMP_A) + {Bound(fs0, TMP_A)} == {None};
    assert fs.names == OneWriter().fs.names && fs.inodes == OneWriter().fs.inodes && fs.past == OneWriter().fs.past;
  }

  lemma StartSecond()
    ensures Enabled(OneWriter(), Start(HOME_FILE, [], "b"))
    ensures Apply(OneWriter(), Start(HOME_FILE, [], "b")) == TwoWriters(Copying(0), Copying(0))
  {
    TempPaths();
    var fs0 := OneWriter().fs;
    var fs := Create(fs0, TMP_B).0;
    var t := TwoWriters(Copying(0), Copying(0));
    assert Past(fs0, TMP_B) + {Bound(fs0, TMP_B)} == {None};
    assert fs.names == t.fs.names && fs.inodes == t.fs.inodes && fs.past == t.fs.past;
  }

  lemma SyncBoth()
    ensures Enabled(TwoWriters(Copying(0), Copying(0)), Sync(0))
    ensures Apply(TwoWriters(Copying(0), Copying(0)), Sync(0)) == TwoWriters(Synced(0), Copying(0))
    ensures Enabled(TwoWriters(Synced(0), Copying(0)), Sync(1))
    ensures Apply(TwoWriters(Synced(0), Copying(0)), Sync(1)) == TwoWriters(Synced(0), Synced(0))
  {
    var s := TwoWriters(Copying(0), Copying(0));
    assert Fsync(s.fs, 0).inodes == s.fs.inodes && Fsync(s.fs, 1).inodes == s.fs.inodes;
  }

  lemma LinkBoth()
    ensures Enabled(TwoWriters(Synced(0), Synced(0)), TrashLink(0, "x"))
    ensures Apply(TwoWriters(Synced(0), Synced(0)), TrashLink(0, "x")) == TwoWriters(Linked, Synced(0))
    ensures Enabled(TwoWriters(Linked, Synced(0)), TrashLink(1, "x"))
    ensures Apply(TwoWriters(Linked, Synced(0)), TrashLink(1, "x")) == TwoWriters(Linked, Linked)
  {
    TempPaths();
    assert !IsTempName("x");
  }

  lemma NobodyIsInit()
    ensures Init(Nobody())
  {
  }

  function OverlapState(i: nat): State {
    match i
    case 0 => Nobody()
    case 1 => OneWriter()
    case 2 => TwoWriters(Copying(0), Copying(0))
    case 3 => TwoWriters(Synced(0), Copying(0))
    case 4 => TwoWriters(Synced(0), Synced(0))
    case 5 => TwoWriters(Linked, Synced(0))
    case _ => TwoWriters(Linked, Linked)
  }

  function OverlapAction(i: nat): Action {
    match i
    case 0 => Start(HOME_FILE, [], "a")
    case 1 => Start(HOME_FILE, [], "b")
    case 2 => Sync(0)
    case 3 => Sync(1)
    case 4 => TrashLink(0, "x")
    case _ => TrashLink(1, "x")
  }

  lemma OverlapStep(i: nat, s: State, a: Action)
    requires i < 6 && s == OverlapState(i) && a == OverlapAction(i)
    ensures Enabled(s, a) && Apply(s, a) == OverlapState(i + 1) && Quiet(s, a)
  {
    TempPaths();
    match i
    case 0 => StartFirst();
    case 1 => StartSecond();
    case 2 => SyncBoth();
    case 3 => SyncBoth();
    case _ => LinkBoth();
  }

  /** Such a state is reached by two ordinary calls of Write. */
  lemma TwoWritersReachOverlap() returns (b: seq<State>, acts: seq<Action>)
    ensures Run(b, acts) && Init(b[0]) && |b| == 7
    ensures forall i | 0 <= i < |acts| :: Quiet(b[i], acts[i])
    ensures var s := b[6];
            && |s.writers| == 2 && s.writers[0].pc.Linked? && s.writers[1].pc.Linked?
            && s.writers[0].target == s.writers[1].target == HOME_FILE
            && s.writers[0].tmp in s.fs.names && s.writers[1].tmp in s.fs.names
            && Quiet(s, Replace(0))
  {
    b := seq(7, i requires 0 <= i < 7 => OverlapState(i));
    acts := seq(6, i requires 0 <= i < 6 => OverlapAction(i));
    NobodyIsInit();
    forall i | 0 <= i < |acts|
      ensures Enabled(b[i], acts[i]) && b[i + 1] == Apply(b[i], acts[i]) && Quiet(b[i], acts[i])
    {
      OverlapStep(i, b[i], acts[i]);
    }
    TempPaths();
  }
}
