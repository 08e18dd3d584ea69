/** Sign-ins over the shared identity file (internal/server/sso.go on internal/identity/identity.go). */
module SignIn {
  // Any number of replicas hold the identity file under the guard, and any number of
  // sign-ins and operators work on each.  A lookup answers from its replica's memory after
  // a reload whose failure it ignores; a write reloads under the file's lock.

  import opened Common
  import opened StateFile
  import opened Identity

  // ------------------------------------------------------- the book in the file

  ghost function DocOf(b: Book): Doc<Mapping> { map a | a in b.byAccount :: Entry(b.byAccount[a], None) }

  ghost predicate IsBook(d: Doc<Mapping>, b: Book) { Indexed(b) && DocOf(b) == d }

  ghost predicate Good(d: Doc<Mapping>) { exists b :: IsBook(d, b) }

  /** The records of the file with both indexes rebuilt. */
  ghost function BookOf(d: Doc<Mapping>): (b: Book)
    ensures Good(d) ==> IsBook(d, b)
  {
    if Good(d) then
      var b :| IsBook(d, b);
      b
    else EMPTY
  }

  /** The records alone determine the indexes. */
  lemma BookIsDetermined(b: Book, c: Book)
    requires Indexed(b) && Indexed(c) && DocOf(b) == DocOf(c)
    ensures b == c
  {
    hide Indexed, DocOf;
    SameRecords(b, c);
    IndexesAreDetermined(b, c);
    IndexesAreDetermined(c, b);
  }

  lemma SameRecords(b: Book, c: Book)
    requires DocOf(b) == DocOf(c)
    ensures b.byAccount == c.byAccount
  {
    assert b.byAccount.Keys == DocOf(b).Keys && c.byAccount.Keys == DocOf(c).Keys;
    forall a | a in b.byAccount ensures b.byAccount[a] == c.byAccount[a] {
      assert DocOf(b)[a] == DocOf(c)[a];
    }
  }

  lemma IndexesAreDetermined(b: Book, c: Book)
    requires Indexed(b) && Indexed(c) && b.byAccount == c.byAccount
    ensures forall e | e in b.byEmail :: e in c.byEmail && c.byEmail[e] == b.byEmail[e]
    ensures forall k | k in b.bySubject :: k in c.bySubject && c.bySubject[k] == b.bySubject[k]
  {
    hide Address, ValidName;
    forall e | e in b.byEmail ensures e in c.byEmail && c.byEmail[e] == b.byEmail[e] {
      assert MappingOk(c, b.byEmail[e]);
    }
    forall k | k in b.bySubject ensures k in c.bySubject && c.bySubject[k] == b.bySubject[k] {
      assert MappingOk(c, b.bySubject[k]);
    }
  }

  lemma BookOfDoc(b: Book)
    requires Indexed(b)
    ensures Good(DocOf(b)) && BookOf(DocOf(b)) == b
  {
    assert IsBook(DocOf(b), b);
    BookIsDetermined(b, BookOf(DocOf(b)));
  }

  /** What the guard loads: reading the records of a good file, in any order, gives its book. */
  lemma LoadingGivesTheBook(d: Doc<Mapping>, list: seq<Mapping>)
    requires Good(d) && Lists(BookOf(d), list)
    ensures Loaded(list) == (BookOf(d), None)
  {
    LoadInvertsSave(BookOf(d), list);
  }

  lemma GoodNeverLapses(d: Doc<Mapping>)
    requires Good(d)
    ensures NeverLapses(d) && forall now :: Prune(d, now) == d
  {
    var b := BookOf(d);
    assert DocOf(b) == d;
    forall now ensures Prune(d, now) == d {
      PruneIsIdentity(d, now);
    }
  }

  /** An operation of the store as the mutation it hands to the guard. */
  ghost function Mut(o: Op, now: int): Mutation<Mapping> {
    (d: Doc<Mapping>) =>
      var r := Do(BookOf(d), o, now);
      if r.Err? then Refused else if r.value.changed then Changed(DocOf(r.value.book)) else Unchanged
  }

  lemma MutSteps(d: Doc<Mapping>, o: Op, now: int)
    requires Good(d)
    ensures var c := Step(BookOf(d), o, now);
            && Good(DocOf(c)) && BookOf(DocOf(c)) == c
            && (Mut(o, now)(d).Changed? ==> Do(BookOf(d), o, now).Ok? && Do(BookOf(d), o, now).value.changed && Mut(o, now)(d) == Changed(DocOf(c)))
            && (!Mut(o, now)(d).Changed? ==> c == BookOf(d))
  {
    hide Indexed;
    StepKeepsIndexed(BookOf(d), o, now);
    BookOfDoc(Step(BookOf(d), o, now));
    UnchangedIsTheSame(BookOf(d), o, now);
  }

  lemma UnchangedIsTheSame(b: Book, o: Op, now: int)
    ensures Do(b, o, now).Ok? && !Do(b, o, now).value.changed ==> Do(b, o, now).value.book == b
  {
  }

  // ------------------------------------------------------------------ the machine

  /** An operation that was committed, and when. */
  datatype Done = Done(o: Op, at: int)

  /**
   History of a sign-in that has been decided: the file's version when the deciding call began, the version it was
   decided on, and whether that call's reload succeeded.
   */
  datatype Basis = Basis(began: nat, version: nat, reloaded: bool)

  /** `since` is set during a call on the store: the file's version when the call began. */
  datatype Session = Session(id: Ident, at: nat, phase: Identity.Phase, since: Option<nat>, basis: Option<Basis>)

  /**
   The replicas and their file, the operations that made its versions, and the sign-ins.  One whose replica
   has crashed is one that takes no further step.
   */
  datatype System = System(files: State<Mapping>, ops: seq<Done>, ins: map<nat, Session>)

  datatype Event =
    | Turn(a: Action<Mapping>)              // a step of a replica's guard that commits nothing
    | Operate(r: nat, o: Op, stamp: Stamp)  // an operator's write commits
    | Arrive(k: nat, id: Ident, r: nat)
    | Call(k: nat)                          // a sign-in's call gets its replica's mutex
    | Look(k: nat)                          // a lookup answers
    | Save(k: nat, stamp: Stamp)            // a write commits
    | Decline(k: nat)                       // a write's mutation reports an error or no change
    | Fail(k: nat)                          // a write ends before its mutation: no lock, no stat or no read
    | Proceed(k: nat, w: World)             // a step between calls

  function Current(s: System): int { |s.files.versions| - 1 }

  ghost predicate InCall(s: System, k: nat) {
    k in s.ins && s.ins[k].since.Some? && s.ins[k].at < |s.files.replicas|
  }

  function CallIn(s: System, k: nat): StoreCall
    requires k in s.ins
  {
    CallOf(s.ins[k].id, s.ins[k].phase)
  }

  ghost predicate Possible(s: System, ev: Event) {
    match ev
    case Turn(a) => Enabled(s.files, a) && !a.Replace? && !a.ReplaceFails?
    case Operate(r, o, stamp) => Enabled(s.files, Replace(r, Mut(o, s.files.now), stamp))
    case Arrive(k, id, r) => k !in s.ins && r < |s.files.replicas| && '\0' !in id.issuer
    case Call(k) =>
      k in s.ins && s.ins[k].since.None? && !CallIn(s, k).NoCall?
      && s.ins[k].at < |s.files.replicas| && s.files.replicas[s.ins[k].at].phase.Idle? && |s.files.versions| > 0
    case Look(k) => InCall(s, k) && CallIn(s, k).Lookup? && Enabled(s.files, Return(s.ins[k].at))
    case Save(k, stamp) =>
      InCall(s, k) && CallIn(s, k).Write? && Enabled(s.files, Replace(s.ins[k].at, Mut(CallIn(s, k).o, s.files.now), stamp))
    case Decline(k) =>
      InCall(s, k) && CallIn(s, k).Write? && Enabled(s.files, Abandon(s.ins[k].at, Mut(CallIn(s, k).o, s.files.now)))
    case Fail(k) => InCall(s, k) && CallIn(s, k).Write?
    case Proceed(k, _) => k in s.ins && s.ins[k].since.None? && CallIn(s, k).NoCall?
  }

  /** The sign-in after a step to phase q; the step that decides it is recorded. */
  function Moved(x: Session, q: Identity.Phase, version: nat, reloaded: bool): Session {
    var decides := DecidedFor(x.phase).None? && DecidedFor(q).Some? && x.since.Some?;
    x.(phase := q, since := None, basis := if decides then Some(Basis(x.since.value, version, reloaded)) else x.basis)
  }

  /** The book a replica answers from. */
  ghost function Held(f: State<Mapping>, r: nat): Book
    requires r < |f.replicas|
  {
    BookOf(f.replicas[r].local.mem)
  }

  ghost function After(s: System, ev: Event): System
    requires Possible(s, ev)
  {
    match ev
    case Turn(a) => s.(files := Apply(s.files, a))
    case Operate(r, o, stamp) =>
      s.(files := Apply(s.files, Replace(r, Mut(o, s.files.now), stamp)), ops := s.ops + [Done(o, s.files.now)])
    case Arrive(k, id, r) => s.(ins := s.ins[k := Session(id, r, Starting, None, None)])
    case Call(k) => s.(ins := s.ins[k := s.ins[k].(since := Some(Current(s)))])
    case Look(k) =>
      var x := s.ins[k];
      var p := s.files.replicas[x.at];
      s.(files := Apply(s.files, Return(x.at)),
         ins := s.ins[k := Moved(x, LookedUp(Held(s.files, x.at), x.id, x.phase), p.base, p.phase.ok)])
    case Save(k, stamp) =>
      var x, o := s.ins[k], CallIn(s, k).o;
      System(Apply(s.files, Replace(x.at, Mut(o, s.files.now), stamp)), s.ops + [Done(o, s.files.now)],
             s.ins[k := Moved(x, Answered(x.phase, Do(Held(s.files, x.at), o, s.files.now)), |s.files.versions|, true)])
    case Decline(k) =>
      var x, o := s.ins[k], CallIn(s, k).o;
      s.(files := Apply(s.files, Abandon(x.at, Mut(o, s.files.now))),
         ins := s.ins[k := Moved(x, Answered(x.phase, Do(Held(s.files, x.at), o, s.files.now)),
                                 s.files.replicas[x.at].base, true)])
    case Fail(k) => s.(ins := s.ins[k := Moved(s.ins[k], Answered(s.ins[k].phase, Err(StoreFailed)), 0, false)])
    case Proceed(k, w) => s.(ins := s.ins[k := Moved(s.ins[k], Onward(s.ins[k].id, s.ins[k].phase, w), 0, false)])
  }

  // ------------------------------------------------------------------ the invariant

  ghost function BookAt(f: State<Mapping>, v: nat): Book
    requires v < |f.versions|
  {
    BookOf(f.versions[v].doc)
  }

  ghost predicate HoldsItsBase(f: State<Mapping>, p: Replica<Mapping>) {
    p.base < |f.versions| && p.local.mem == f.versions[p.base].doc
  }

  /** Version j + 1 of the book is what operation j made of version j. */
  ghost predicate Chained(f: State<Mapping>, ops: seq<Done>, j: nat)
    requires j < |ops|
  {
    j + 1 < |f.versions| && BookAt(f, j + 1) == Step(BookAt(f, j), ops[j].o, ops[j].at)
  }

  ghost predicate FileOk(f: State<Mapping>, ops: seq<Done>) {
    && Inv(f) && |f.versions| == |ops| + 1
    && (forall v | 0 <= v < |f.versions| :: Good(f.versions[v].doc))
    && (forall r | 0 <= r < |f.replicas| :: HoldsItsBase(f, f.replicas[r]))
    && (forall j | 0 <= j < |ops| :: Chained(f, ops, j))
  }

  /** A decided sign-in's account is bound to its pair in the version it was decided on. */
  ghost predicate Justified(f: State<Mapping>, x: Session) {
    DecidedFor(x.phase).Some? ==>
      && x.basis.Some? && x.basis.value.version < |f.versions|
      && (x.basis.value.reloaded ==> x.basis.value.began <= x.basis.value.version)
      && (x.id.subject != "" ==> Bound(BookAt(f, x.basis.value.version), DecidedFor(x.phase).value, x.id))
  }

  ghost predicate SessionOk(f: State<Mapping>, x: Session) {
    && x.at < |f.replicas| && '\0' !in x.id.issuer
    && (x.since.Some? ==> x.since.value < |f.versions| && StattedSince(f.replicas[x.at], x.since.value))
    && Justified(f, x)
  }

  ghost predicate SystemOk(s: System) {
    FileOk(s.files, s.ops) && forall k | k in s.ins :: SessionOk(s.files, s.ins[k])
  }

  ghost predicate Grows(f: State<Mapping>, g: State<Mapping>) {
    f.versions <= g.versions && |f.replicas| == |g.replicas|
  }

  lemma ActorHolds(f: State<Mapping>, a: Action<Mapping>)
    requires Enabled(f, a) && !a.Replace? && !a.ReplaceFails? && !a.Tick? && a.r < |f.replicas| && HoldsItsBase(f, f.replicas[a.r])
    requires f.versions[0].doc == map[] && f.versions[|f.versions| - 1].doc == Prune(f.versions[|f.versions| - 1].doc, f.now)
    requires f.replicas[a.r].local.mem == Prune(f.replicas[a.r].local.mem, f.now)
    ensures HoldsItsBase(Apply(f, a), Apply(f, a).replicas[a.r])
  {
  }

  lemma TurnHolds(f: State<Mapping>, a: Action<Mapping>, r: nat)
    requires Inv(f) && Enabled(f, a) && !a.Replace? && !a.ReplaceFails? && r < |f.replicas| && HoldsItsBase(f, f.replicas[r])
    requires forall v | 0 <= v < |f.versions| :: Good(f.versions[v].doc)
    ensures r < |Apply(f, a).replicas| && HoldsItsBase(Apply(f, a), Apply(f, a).replicas[r])
  {
    hide Good, Prune;
    if !a.Tick? && a.r == r {
      GoodNeverLapses(f.replicas[r].local.mem);
      GoodNeverLapses(f.versions[|f.versions| - 1].doc);
      assert f.versions[0].doc == map[];
      ActorHolds(f, a);
    } else {
      hide Inv;
    }
  }

  lemma TurnKeepsFile(f: State<Mapping>, ops: seq<Done>, a: Action<Mapping>)
    requires FileOk(f, ops) && Enabled(f, a) && !a.Replace? && !a.ReplaceFails?
    ensures FileOk(Apply(f, a), ops) && Grows(f, Apply(f, a))
  {
    hide Inv, Good, Enabled, Apply, HoldsItsBase;
    StepKeepsInv(f, a);
    StepGrows(f, a);
    var g := Apply(f, a);
    forall r | 0 <= r < |g.replicas| ensures HoldsItsBase(g, g.replicas[r]) {
      TurnHolds(f, a, r);
    }
    forall j | 0 <= j < |ops| ensures Chained(g, ops, j) {
      assert Chained(f, ops, j);
    }
  }

  /** What a commit adds: the operation's result on the last version, which the writer then holds. */
  ghost predicate Adds(f: State<Mapping>, g: State<Mapping>, r: nat, o: Op) {
    && |f.versions| > 0 && |g.versions| == |f.versions| + 1 && f.versions == g.versions[..|f.versions|]
    && |g.replicas| == |f.replicas| && r < |f.replicas|
    && (forall q | 0 <= q < |f.replicas| && q != r :: g.replicas[q] == f.replicas[q])
    && Good(g.versions[|f.versions|].doc) && HoldsItsBase(g, g.replicas[r]) && g.replicas[r].base == |f.versions|
    && BookAt(g, |f.versions|) == Step(BookAt(f, |f.versions| - 1), o, f.now)
  }

  /** A writer about to commit holds the last version. */
  lemma WriterIsCurrent(f: State<Mapping>, r: nat)
    requires Inv(f) && r < |f.replicas| && f.replicas[r].phase == Ready(true, true) && HoldsItsBase(f, f.replicas[r])
    ensures |f.versions| > 0 && f.replicas[r].base == |f.versions| - 1
    ensures f.replicas[r].local.mem == f.versions[|f.versions| - 1].doc && Held(f, r) == BookAt(f, |f.versions| - 1)
  {
    assert ReplicaOk(f, f.replicas[r]);
  }

  lemma ReplaceEffect(f: State<Mapping>, r: nat, op: Mutation<Mapping>, stamp: Stamp, d: Doc<Mapping>)
    requires Enabled(f, Replace(r, op, stamp)) && op(f.replicas[r].local.mem) == Changed(d) && Prune(d, f.now) == d
    ensures var g, top := Apply(f, Replace(r, op, stamp)), |f.versions|;
            && g.versions == f.versions + [Version(d, stamp)] && |g.replicas| == |f.replicas|
            && (forall q | 0 <= q < |f.replicas| && q != r :: g.replicas[q] == f.replicas[q])
            && g.replicas[r].base == top && g.replicas[r].local.mem == d
  {
  }

  lemma MutChanges(d: Doc<Mapping>, o: Op, now: int)
    requires Good(d) && Mut(o, now)(d).Changed?
    ensures var e := DocOf(Step(BookOf(d), o, now));
            Mut(o, now)(d) == Changed(e) && Prune(e, now) == e && Good(e) && BookOf(e) == Step(BookOf(d), o, now)
            && Do(BookOf(d), o, now).Ok? && Do(BookOf(d), o, now).value.changed
  {
    MutSteps(d, o, now);
    hide Mut, Good, BookOf, Step, Do, DocOf;
    GoodNeverLapses(DocOf(Step(BookOf(d), o, now)));
  }

  lemma ReplaceAdds(f: State<Mapping>, r: nat, o: Op, stamp: Stamp)
    requires Inv(f) && Enabled(f, Replace(r, Mut(o, f.now), stamp)) && HoldsItsBase(f, f.replicas[r])
    requires Good(f.versions[|f.versions| - 1].doc)
    ensures Adds(f, Apply(f, Replace(r, Mut(o, f.now), stamp)), r, o) && Do(Held(f, r), o, f.now).Ok?
  {
    hide Good, BookOf, Inv, Step, Do, Mut, Apply, DocOf;
    WriterIsCurrent(f, r);
    var d := f.versions[|f.versions| - 1].doc;
    MutChanges(d, o, f.now);
    ReplaceEffect(f, r, Mut(o, f.now), stamp, DocOf(Step(BookOf(d), o, f.now)));
    hide Enabled;
  }

  lemma AddedIsChained(f: State<Mapping>, g: State<Mapping>, ops: seq<Done>, r: nat, o: Op)
    requires Adds(f, g, r, o) && |f.versions| == |ops| + 1 && forall j | 0 <= j < |ops| :: Chained(f, ops, j)
    ensures forall j | 0 <= j < |ops + [Done(o, f.now)]| :: Chained(g, ops + [Done(o, f.now)], j)
  {
    hide Good, BookOf, Step, HoldsItsBase;
    forall j | 0 <= j < |ops + [Done(o, f.now)]| ensures Chained(g, ops + [Done(o, f.now)], j) {
      if j < |ops| {
        assert Chained(f, ops, j);
        assert g.versions[j] == f.versions[j] && g.versions[j + 1] == f.versions[j + 1];
      } else {
        assert g.versions[j] == f.versions[j];
      }
    }
  }

  lemma AddedIsGood(f: State<Mapping>, g: State<Mapping>, r: nat, o: Op)
    requires Adds(f, g, r, o) && forall v | 0 <= v < |f.versions| :: Good(f.versions[v].doc)
    requires forall q | 0 <= q < |f.replicas| :: HoldsItsBase(f, f.replicas[q])
    ensures forall v | 0 <= v < |g.versions| :: Good(g.versions[v].doc)
    ensures forall q | 0 <= q < |g.replicas| :: HoldsItsBase(g, g.replicas[q])
    ensures Grows(f, g)
  {
    hide Good, BookOf, Step;
    forall v | 0 <= v < |g.versions| ensures Good(g.versions[v].doc) {
      if v < |f.versions| {
        assert g.versions[v] == f.versions[v];
      }
    }
    forall q | 0 <= q < |g.replicas| ensures HoldsItsBase(g, g.replicas[q]) {
      if q != r {
        assert HoldsItsBase(f, f.replicas[q]);
        assert g.versions[f.replicas[q].base] == f.versions[f.replicas[q].base];
      }
    }
  }

  lemma ReplaceKeepsFile(f: State<Mapping>, ops: seq<Done>, r: nat, o: Op, stamp: Stamp)
    requires FileOk(f, ops) && Enabled(f, Replace(r, Mut(o, f.now), stamp))
    ensures var g := Apply(f, Replace(r, Mut(o, f.now), stamp));
            FileOk(g, ops + [Done(o, f.now)]) && Grows(f, g) && Adds(f, g, r, o)
  {
    var a := Replace(r, Mut(o, f.now), stamp);
    StepKeepsInv(f, a);
    assert r < |f.replicas| && |f.versions| > 0;
    ReplaceAdds(f, r, o, stamp);
    var g := Apply(f, a);
    hide Inv, Good, Enabled, Apply, HoldsItsBase, Chained, Mut;
    AddedIsGood(f, g, r, o);
    AddedIsChained(f, g, ops, r, o);
  }

  lemma SessionStays(f: State<Mapping>, a: Action<Mapping>, x: Session)
    requires Enabled(f, a) && SessionOk(f, x)
    ensures SessionOk(Apply(f, a), x)
  {
    StepGrows(f, a);
    if x.since.Some? {
      StatKeepsUp(f, a, x.at, x.since.value);
    }
    hide Enabled, Apply, StattedSince, BookOf, Bound;
  }

  // ---------------------------------------------------------- sessions, step by step

  lemma MovedOk(f: State<Mapping>, x: Session, q: Identity.Phase, version: nat, reloaded: bool)
    requires SessionOk(f, x)
    requires DecidedFor(x.phase).Some? ==> DecidedFor(q) == DecidedFor(x.phase)
    requires DecidedFor(x.phase).None? && DecidedFor(q).Some? ==>
               && x.since.Some? && version < |f.versions| && (reloaded ==> x.since.value <= version)
               && (x.id.subject != "" ==> Bound(BookAt(f, version), DecidedFor(q).value, x.id))
    ensures SessionOk(f, Moved(x, q, version, reloaded))
  {
    hide BookOf, Bound, StattedSince;
  }

  /** Once decided, a sign-in is let in as that account, and only a call on the store decides one. */
  lemma DecidedPhaseStays(b: Book, id: Ident, p: Identity.Phase, r: Result<Change, IdError>, w: World)
    ensures CallOf(id, p).Lookup? && DecidedFor(p).Some? ==> DecidedFor(LookedUp(b, id, p)) == DecidedFor(p)
    ensures CallOf(id, p).Write? && DecidedFor(p).Some? ==> DecidedFor(Answered(p, r)) == DecidedFor(p)
    ensures CallOf(id, p).Write? && r == Err(StoreFailed) && DecidedFor(p).None? ==> DecidedFor(Answered(p, r)).None?
    ensures CallOf(id, p).NoCall? ==> DecidedFor(Onward(id, p, w)) == DecidedFor(p)
    ensures CallOf(id, p).Lookup? && DecidedFor(p).None? && DecidedFor(LookedUp(b, id, p)).Some? ==>
              p.Starting? && Bound(b, DecidedFor(LookedUp(b, id, p)).value, id)
  {
  }

  /** A call whose reload succeeded answers from a version no older than the one current when it began. */
  lemma AnswersAreFresh(f: State<Mapping>, x: Session)
    requires Inv(f) && SessionOk(f, x) && x.since.Some? && f.replicas[x.at].phase.Ready? && f.replicas[x.at].phase.ok
    ensures x.since.value <= f.replicas[x.at].base
  {
    assert ReplicaOk(f, f.replicas[x.at]);
  }

  lemma OthersStay(s: System, a: Action<Mapping>)
    requires Enabled(s.files, a) && forall k | k in s.ins :: SessionOk(s.files, s.ins[k])
    ensures forall k | k in s.ins :: SessionOk(Apply(s.files, a), s.ins[k])
  {
    hide SessionOk, Apply, Enabled;
    forall k | k in s.ins ensures SessionOk(Apply(s.files, a), s.ins[k]) {
      SessionStays(s.files, a, s.ins[k]);
    }
  }

  lemma LookDecides(f: State<Mapping>, x: Session)
    requires Inv(f) && SessionOk(f, x) && x.since.Some? && CallOf(x.id, x.phase).Lookup?
    requires HoldsItsBase(f, f.replicas[x.at]) && Enabled(f, Return(x.at))
    ensures var p := f.replicas[x.at];
            var q := LookedUp(Held(f, x.at), x.id, x.phase);
            && (DecidedFor(x.phase).Some? ==> DecidedFor(q) == DecidedFor(x.phase))
            && p.phase.Ready? && p.base < |f.versions| && (p.phase.ok ==> x.since.value <= p.base)
            && (DecidedFor(x.phase).None? && DecidedFor(q).Some? ==> Bound(BookAt(f, p.base), DecidedFor(q).value, x.id))
  {
    hide LookedUp, BookOf, Bound, Inv, SessionOk;
    DecidedPhaseStays(Held(f, x.at), x.id, x.phase, Err(StoreFailed), World(false, (_: string) => false, None));
    if f.replicas[x.at].phase.ok {
      AnswersAreFresh(f, x);
    }
  }

  lemma LookKeepsOk(s: System, k: nat)
    requires SystemOk(s) && Possible(s, Look(k))
    ensures SystemOk(After(s, Look(k)))
  {
    hide Inv, Apply, Enabled, LookedUp, BookOf, Bound, Good;
    var x, f := s.ins[k], s.files;
    var p, a := f.replicas[x.at], Return(x.at);
    assert SessionOk(f, x) && HoldsItsBase(f, p);
    TurnKeepsFile(f, s.ops, a);
    StepGrows(f, a);
    OthersStay(s, a);
    LookDecides(f, x);
    hide FileOk, SessionOk, HoldsItsBase;
    MovedOk(Apply(f, a), x, LookedUp(Held(f, x.at), x.id, x.phase), p.base, p.phase.ok);
  }

  lemma WriteDecides(b: Book, x: Session, o: Op, now: int)
    requires Indexed(b) && CallOf(x.id, x.phase) == Write(o)
    ensures var q := Answered(x.phase, Do(b, o, now));
            && (DecidedFor(x.phase).Some? ==> DecidedFor(q) == DecidedFor(x.phase))
            && (DecidedFor(x.phase).None? && DecidedFor(q).Some? && x.id.subject != "" ==>
                  Bound(Step(b, o, now), DecidedFor(q).value, x.id))
  {
    hide Indexed, Step, Do, Bound;
    DecidedPhaseStays(b, x.id, x.phase, Do(b, o, now), World(false, (_: string) => false, None));
    var q := Answered(x.phase, Do(b, o, now));
    if DecidedFor(x.phase).None? && DecidedFor(q).Some? && x.id.subject != "" {
      LettingInBinds(b, x.id, x.phase, o, now, DecidedFor(q).value);
    }
  }

  lemma WriterHoldsABook(s: System, r: nat)
    requires SystemOk(s) && r < |s.files.replicas| && s.files.replicas[r].phase == Ready(true, true)
    ensures var f := s.files;
            && |f.versions| > 0 && f.replicas[r].base == |f.versions| - 1
            && Held(f, r) == BookAt(f, |f.versions| - 1) && Indexed(Held(f, r))
            && f.replicas[r].local.mem == f.versions[|f.versions| - 1].doc && Good(f.replicas[r].local.mem)
  {
    hide Inv, SessionOk;
    assert HoldsItsBase(s.files, s.files.replicas[r]);
    WriterIsCurrent(s.files, r);
    assert IsBook(s.files.versions[|s.files.versions| - 1].doc, Held(s.files, r));
  }

  lemma SaveKeepsOk(s: System, k: nat, stamp: Stamp)
    requires SystemOk(s) && Possible(s, Save(k, stamp))
    ensures SystemOk(After(s, Save(k, stamp)))
  {
    hide Inv, Apply, Step, Do, Mut, Good, BookOf, Bound, Answered;
    var x, f, o := s.ins[k], s.files, CallIn(s, k).o;
    var a := Replace(x.at, Mut(o, f.now), stamp);
    ReplaceKeepsFile(f, s.ops, x.at, o, stamp);
    WriterHoldsABook(s, x.at);
    OthersStay(s, a);
    WriteDecides(Held(f, x.at), x, o, f.now);
    var q, g := Answered(x.phase, Do(Held(f, x.at), o, f.now)), Apply(f, a);
    assert SessionOk(f, x) && SessionOk(g, x);
    assert x.since.value < |f.versions|;
    hide SessionOk, Enabled, FileOk, HoldsItsBase;
    MovedOk(g, x, q, |f.versions|, true);
  }

  lemma DeclineKeepsOk(s: System, k: nat)
    requires SystemOk(s) && Possible(s, Decline(k))
    ensures SystemOk(After(s, Decline(k)))
  {
    hide Inv, Apply, Step, Do, Mut, Good, BookOf, Bound, Answered;
    var x, f, o := s.ins[k], s.files, CallIn(s, k).o;
    var a := Abandon(x.at, Mut(o, f.now));
    TurnKeepsFile(f, s.ops, a);
    StepGrows(f, a);
    WriterHoldsABook(s, x.at);
    OthersStay(s, a);
    WriteDecides(Held(f, x.at), x, o, f.now);
    MutSteps(f.replicas[x.at].local.mem, o, f.now);
    var q, g := Answered(x.phase, Do(Held(f, x.at), o, f.now)), Apply(f, a);
    assert SessionOk(f, x) && SessionOk(g, x);
    assert x.since.value < |f.versions|;
    assert !Mut(o, f.now)(f.replicas[x.at].local.mem).Changed?;
    hide SessionOk, Enabled, FileOk, HoldsItsBase;
    MovedOk(g, x, q, f.replicas[x.at].base, true);
  }

  lemma MoveKeepsOk(s: System, ev: Event)
    requires SystemOk(s) && Possible(s, ev) && (ev.Arrive? || ev.Call? || ev.Fail? || ev.Proceed?)
    ensures SystemOk(After(s, ev))
  {
    hide FileOk, BookOf, Bound, Answered, Onward, CallOf;
    if ev.Fail? {
      var x := s.ins[ev.k];
      DecidedPhaseStays(EMPTY, x.id, x.phase, Err(StoreFailed), World(false, (_: string) => false, None));
      MovedOk(s.files, x, Answered(x.phase, Err(StoreFailed)), 0, false);
    } else if ev.Proceed? {
      var x := s.ins[ev.k];
      DecidedPhaseStays(EMPTY, x.id, x.phase, Err(StoreFailed), ev.w);
      MovedOk(s.files, x, Onward(x.id, x.phase, ev.w), 0, false);
    }
  }

  lemma StepKeepsOk(s: System, ev: Event)
    requires SystemOk(s) && Possible(s, ev)
    ensures SystemOk(After(s, ev))
  {
    hide FileOk, SessionOk;
    match ev
    case Turn(a) =>
      TurnKeepsFile(s.files, s.ops, a);
      OthersStay(s, a);
    case Operate(r, o, stamp) =>
      ReplaceKeepsFile(s.files, s.ops, r, o, stamp);
      OthersStay(s, Replace(r, Mut(o, s.files.now), stamp));
    case Look(k) => LookKeepsOk(s, k);
    case Save(k, stamp) => SaveKeepsOk(s, k, stamp);
    case Decline(k) => DeclineKeepsOk(s, k);
    case _ => MoveKeepsOk(s, ev);
  }

  // -------------------------------------------------------------------- runs

  ghost predicate SignInRun(b: seq<System>, evs: seq<Event>) {
    && |b| == |evs| + 1 && Init(b[0].files) && b[0].ops == [] && b[0].ins == map[]
    && (forall i | 0 <= i < |evs| :: Possible(b[i], evs[i]) && b[i + 1] == After(b[i], evs[i]))
  }

  lemma NothingDone(s: System)
    requires Init(s.files) && s.ops == [] && s.ins == map[]
    ensures SystemOk(s)
  {
    InitHolds(s.files);
    assert IsBook(map[], EMPTY);
  }

  lemma {:induction false} RunKeepsOk(b: seq<System>, evs: seq<Event>, n: nat)
    requires SignInRun(b, evs) && n < |b|
    ensures SystemOk(b[n])
  {
    hide SystemOk, Possible, After;
    if n == 0 {
      NothingDone(b[0]);
    } else {
      RunKeepsOk(b, evs, n - 1);
      StepKeepsOk(b[n - 1], evs[n - 1]);
    }
  }

  /** No commit from version i to version j forgets the account. */
  ghost predicate NotForgotten(ops: seq<Done>, i: nat, j: nat, a: string) {
    forall m | i <= m < j && m < |ops| :: ops[m].o != Forget(a)
  }

  lemma {:induction false} BoundUntilForgotten(f: State<Mapping>, ops: seq<Done>, i: nat, j: nat, a: string, id: Ident)
    requires FileOk(f, ops) && i <= j < |f.versions| && Bound(BookAt(f, i), a, id) && NotForgotten(ops, i, j, a)
    ensures Bound(BookAt(f, j), a, id)
    decreases j - i
  {
    hide Inv, Bound, BookOf, Step;
    if i < j {
      BoundUntilForgotten(f, ops, i, j - 1, a, id);
      assert Chained(f, ops, j - 1) && IsBook(f.versions[j - 1].doc, BookAt(f, j - 1));
      BoundStays(BookAt(f, j - 1), ops[j - 1].o, ops[j - 1].at, a, id);
    }
  }

  /** Sign-in k has been decided for the account, with what the history says of its deciding call. */
  ghost predicate LetIn(s: System, k: nat, a: string) {
    k in s.ins && DecidedFor(s.ins[k].phase) == Some(a) && s.ins[k].basis.Some? && s.ins[k].id.subject != ""
  }

  ghost function DecidedOn(s: System, k: nat): nat
    requires k in s.ins && s.ins[k].basis.Some?
  {
    s.ins[k].basis.value.version
  }

  /**
   However the steps of replicas, operators and sign-ins interleave and whatever reloads fail: a sign-in that is let in as
   an account was decided on a committed version that binds the account to its issuer and subject, and so does
   every later version until somebody forgets the account.  If the deciding call's reload did not fail, that
   version is no older than the one current when the call began.
   */
  lemma LetInMeansBound(b: seq<System>, evs: seq<Event>, n: nat, k: nat, a: string)
    requires SignInRun(b, evs) && n < |b| && k in b[n].ins && DecidedFor(b[n].ins[k].phase) == Some(a)
    requires b[n].ins[k].id.subject != ""
    ensures LetIn(b[n], k, a) && DecidedOn(b[n], k) < |b[n].files.versions|
    ensures b[n].ins[k].basis.value.reloaded ==> b[n].ins[k].basis.value.began <= DecidedOn(b[n], k)
    ensures forall v | DecidedOn(b[n], k) <= v < |b[n].files.versions| && NotForgotten(b[n].ops, DecidedOn(b[n], k), v, a) ::
              Bound(BookAt(b[n].files, v), a, b[n].ins[k].id)
  {
    hide Bound, BookOf, Possible, After, FileOk;
    RunKeepsOk(b, evs, n);
    var s := b[n];
    var x := s.ins[k];
    assert SessionOk(s.files, x);
    forall v | DecidedOn(s, k) <= v < |s.files.versions| && NotForgotten(s.ops, DecidedOn(s, k), v, a)
      ensures Bound(BookAt(s.files, v), a, x.id)
    {
      BoundUntilForgotten(s.files, s.ops, DecidedOn(s, k), v, a, x.id);
    }
  }

  /** Once a version binds an account to a pair, only that pair is let in on it or later, until somebody forgets the account. */
  lemma OnlyTheBoundPairSignsIn(b: seq<System>, evs: seq<Event>, n: nat, k: nat, a: string, owner: Ident, i: nat)
    requires SignInRun(b, evs) && n < |b| && LetIn(b[n], k, a) && '\0' !in owner.issuer
    requires i < |b[n].files.versions| && Bound(BookAt(b[n].files, i), a, owner)
    requires i <= DecidedOn(b[n], k) || (b[n].ins[k].basis.value.reloaded && i <= b[n].ins[k].basis.value.began)
    requires NotForgotten(b[n].ops, i, DecidedOn(b[n], k), a)
    ensures owner.issuer == b[n].ins[k].id.issuer && owner.subject == b[n].ins[k].id.subject
  {
    hide Bound, BookOf, Possible, After;
    RunKeepsOk(b, evs, n);
    var s := b[n];
    var x, v := s.ins[k], DecidedOn(s, k);
    assert SessionOk(s.files, x);
    BoundUntilForgotten(s.files, s.ops, i, v, a, owner);
    assert IsBook(s.files.versions[v].doc, BookAt(s.files, v));
    BoundToOnePair(BookAt(s.files, v), a, owner, x.id);
  }

  /**
   Trust on first use, however the sign-ins race: two sign-ins let in as the same account carry the same issuer and
   subject, unless the account was forgotten between the versions they were decided on.
   */
  lemma OneAccountOnePair(b: seq<System>, evs: seq<Event>, n: nat, k: nat, l: nat, a: string)
    requires SignInRun(b, evs) && n < |b| && LetIn(b[n], k, a) && LetIn(b[n], l, a)
    requires DecidedOn(b[n], k) <= DecidedOn(b[n], l) && NotForgotten(b[n].ops, DecidedOn(b[n], k), DecidedOn(b[n], l), a)
    ensures b[n].ins[k].id.issuer == b[n].ins[l].id.issuer && b[n].ins[k].id.subject == b[n].ins[l].id.subject
  {
    hide Bound, BookOf, Possible, After, FileOk;
    RunKeepsOk(b, evs, n);
    assert SessionOk(b[n].files, b[n].ins[k]) && SessionOk(b[n].files, b[n].ins[l]);
    OnlyTheBoundPairSignsIn(b, evs, n, l, a, b[n].ins[k].id, DecidedOn(b[n], k));
  }

  /**
   The same by the clock: of the sign-ins whose deciding calls began after the last Forget of an account and did not
   fail to reload, all that are let in as it carry one issuer and subject.
   */
  lemma OnePairSinceTheLastForget(b: seq<System>, evs: seq<Event>, n: nat, k: nat, l: nat, a: string, from: nat)
    requires SignInRun(b, evs) && n < |b| && LetIn(b[n], k, a) && LetIn(b[n], l, a)
    requires NotForgotten(b[n].ops, from, |b[n].ops|, a)
    requires b[n].ins[k].basis.value.reloaded && from <= b[n].ins[k].basis.value.began
    requires b[n].ins[l].basis.value.reloaded && from <= b[n].ins[l].basis.value.began
    ensures b[n].ins[k].id.issuer == b[n].ins[l].id.issuer && b[n].ins[k].id.subject == b[n].ins[l].id.subject
  {
    hide Bound, BookOf, Possible, After, FileOk;
    RunKeepsOk(b, evs, n);
    assert SessionOk(b[n].files, b[n].ins[k]) && SessionOk(b[n].files, b[n].ins[l]);
    if DecidedOn(b[n], k) <= DecidedOn(b[n], l) {
      OneAccountOnePair(b, evs, n, k, l, a);
    } else {
      OneAccountOnePair(b, evs, n, l, k, a);
    }
  }

  // --------------------------------------------------- what the history records

  lemma SinceMoves(s: System, ev: Event, k: nat)
    requires Possible(s, ev) && k in After(s, ev).ins && After(s, ev).ins[k].since.Some? && ev != Call(k)
    ensures k in s.ins && s.ins[k].since == After(s, ev).ins[k].since
  {
  }

  lemma CallSets(s: System, k: nat)
    requires Possible(s, Call(k))
    ensures k in After(s, Call(k)).ins && After(s, Call(k)).ins[k].since == Some(Current(s))
  {
  }

  /** When a call under way began. */
  lemma {:induction false} CallBegan(b: seq<System>, evs: seq<Event>, n: nat, k: nat) returns (i: nat)
    requires SignInRun(b, evs) && n < |b| && k in b[n].ins && b[n].ins[k].since.Some?
    ensures i < n && evs[i] == Call(k) && Current(b[i]) == b[n].ins[k].since.value
  {
    hide After, Possible;
    assert n > 0;
    if evs[n - 1] == Call(k) {
      i := n - 1;
      CallSets(b[i], k);
    } else {
      SinceMoves(b[n - 1], evs[n - 1], k);
      i := CallBegan(b, evs, n - 1, k);
    }
  }

  /** Whatever is committed meanwhile, a decided sign-in stays decided, on what it was decided on. */
  lemma DecisionStays(s: System, ev: Event, k: nat)
    requires Possible(s, ev) && k in s.ins && DecidedFor(s.ins[k].phase).Some?
    ensures k in After(s, ev).ins && After(s, ev).ins[k].id == s.ins[k].id
    ensures DecidedFor(After(s, ev).ins[k].phase) == DecidedFor(s.ins[k].phase) && After(s, ev).ins[k].basis == s.ins[k].basis
  {
    hide Apply, Enabled, Step, Do, Pinned, Approved, BookOf;
  }

  /** What the deciding step records. */
  ghost predicate Records(s: System, t: System, k: nat, reloaded: bool) {
    && InCall(s, k) && k in t.ins && t.ins[k].id == s.ins[k].id && t.ins[k].basis.Some? && s.ins[k].at < |t.files.replicas|
    && t.ins[k].basis.value == Basis(s.ins[k].since.value, t.files.replicas[s.ins[k].at].base, reloaded)
  }

  lemma LookRecords(s: System, k: nat)
    requires Possible(s, Look(k)) && DecidedFor(s.ins[k].phase).None? && DecidedFor(After(s, Look(k)).ins[k].phase).Some?
    ensures s.files.replicas[s.ins[k].at].phase.Ready?
    ensures Records(s, After(s, Look(k)), k, s.files.replicas[s.ins[k].at].phase.ok)
  {
    hide BookOf, LookedUp;
  }

  lemma SaveRecords(s: System, k: nat, stamp: Stamp)
    requires Possible(s, Save(k, stamp))
    requires DecidedFor(s.ins[k].phase).None? && DecidedFor(After(s, Save(k, stamp)).ins[k].phase).Some?
    ensures Records(s, After(s, Save(k, stamp)), k, true)
  {
    hide BookOf, Mut, Do, Answered;
  }

  lemma DeclineRecords(s: System, k: nat)
    requires Possible(s, Decline(k)) && DecidedFor(s.ins[k].phase).None? && DecidedFor(After(s, Decline(k)).ins[k].phase).Some?
    ensures Records(s, After(s, Decline(k)), k, true)
  {
    hide BookOf, Mut, Do, Answered;
  }

  lemma OthersDoNotDecide(s: System, ev: Event, k: nat)
    requires Possible(s, ev) && k in After(s, ev).ins && !((ev.Look? || ev.Save? || ev.Decline?) && ev.k == k)
    requires k in s.ins ==> DecidedFor(s.ins[k].phase).None?
    ensures DecidedFor(After(s, ev).ins[k].phase).None?
  {
    hide BookOf, Mut, Do, Apply, Enabled, LookedUp, Answered, Onward;
    if ev.Fail? && ev.k == k {
      DecidedPhaseStays(EMPTY, s.ins[k].id, s.ins[k].phase, Err(StoreFailed), World(false, (_: string) => false, None));
    } else if ev.Proceed? && ev.k == k {
      DecidedPhaseStays(EMPTY, s.ins[k].id, s.ins[k].phase, Err(StoreFailed), ev.w);
    }
  }

  lemma Decides(s: System, ev: Event, k: nat)
    requires Possible(s, ev) && k in After(s, ev).ins && DecidedFor(After(s, ev).ins[k].phase).Some?
    requires k in s.ins ==> DecidedFor(s.ins[k].phase).None?
    ensures (ev.Look? || ev.Save? || ev.Decline?) && ev.k == k && InCall(s, k)
    ensures ev.Look? ==> s.files.replicas[s.ins[k].at].phase.Ready?
    ensures Records(s, After(s, ev), k, !ev.Look? || s.files.replicas[s.ins[k].at].phase.ok)
  {
    if !((ev.Look? || ev.Save? || ev.Decline?) && ev.k == k) {
      OthersDoNotDecide(s, ev, k);
      assert false;
    }
    assert InCall(s, k) && k in s.ins;
    hide After, Enabled, Records;
    match ev
    case Look(_) => LookRecords(s, k);
    case Save(_, stamp) => SaveRecords(s, k, stamp);
    case Decline(_) => DeclineRecords(s, k);
  }

  /** What the history of a let-in sign-in records: the one call that decided it, and when that call began. */
  lemma {:induction false} DecidedByOneCall(b: seq<System>, evs: seq<Event>, n: nat, k: nat, a: string) returns (i: nat, j: nat)
    requires SignInRun(b, evs) && n < |b| && k in b[n].ins && DecidedFor(b[n].ins[k].phase) == Some(a)
    ensures i < j < n && evs[i] == Call(k) && (evs[j].Look? || evs[j].Save? || evs[j].Decline?) && evs[j].k == k
    ensures k in b[j].ins && DecidedFor(b[j].ins[k].phase).None? && b[n].ins[k].basis.Some?
    ensures var x, basis := b[j].ins[k], b[n].ins[k].basis.value;
            && basis.began == Current(b[i]) && x.at < |b[j].files.replicas| && x.at < |b[j + 1].files.replicas|
            && basis.version == b[j + 1].files.replicas[x.at].base
            && (basis.reloaded <==> !evs[j].Look? || (b[j].files.replicas[x.at].phase.Ready? && b[j].files.replicas[x.at].phase.ok))
  {
    hide After, Possible, InCall;
    assert n > 0;
    if k in b[n - 1].ins && DecidedFor(b[n - 1].ins[k].phase).Some? {
      DecisionStays(b[n - 1], evs[n - 1], k);
      i, j := DecidedByOneCall(b, evs, n - 1, k, a);
    } else {
      j := n - 1;
      Decides(b[j], evs[j], k);
      CallSince(b[j], k);
      i := CallBegan(b, evs, j, k);
    }
  }

  lemma CallSince(s: System, k: nat)
    requires InCall(s, k)
    ensures k in s.ins && s.ins[k].since.Some? && s.ins[k].at < |s.files.replicas|
  {
  }

  // --------------------------------------------- who is found after a Forget

  lemma {:induction false} UnboundUntilBoundAgain(f: State<Mapping>, ops: seq<Done>, i: nat, j: nat, a: string, id: Ident)
    requires FileOk(f, ops) && i <= j < |f.versions| && !Bound(BookAt(f, i), a, id)
    requires forall m | i <= m < |ops| :: !Binds(ops[m].o, a, id)
    ensures !Bound(BookAt(f, j), a, id)
    decreases j - i
  {
    hide Inv, Bound, BookOf, Step;
    if i < j {
      UnboundUntilBoundAgain(f, ops, i, j - 1, a, id);
      assert Chained(f, ops, j - 1);
      UnboundStays(BookAt(f, j - 1), ops[j - 1].o, ops[j - 1].at, a, id);
    }
  }

  lemma ForgottenVersion(f: State<Mapping>, ops: seq<Done>, i: nat, a: string, id: Ident)
    requires FileOk(f, ops) && i < |ops| && ops[i].o == Forget(a)
    ensures !Bound(BookAt(f, i + 1), a, id)
  {
    hide Inv;
    assert Chained(f, ops, i) && IsBook(f.versions[i].doc, BookAt(f, i));
    ForgettingUnbinds(BookAt(f, i), ops[i].at, a, id);
  }

  /**
   Exactly when a former pair is still found.  After operation i forgot the account and nothing has bound the pair to
   it again, whatever locks, stats and reads failed, a replica's lookup answers the account for that pair if and only
   if its contents are of a version from before the Forget that binds it; and then a sign-in is let in.
   */
  lemma FormerPairIsLetInIffMemoryIsOlder(b: seq<System>, evs: seq<Event>, n: nat, i: nat, a: string, id: Ident, r: nat)
    requires SignInRun(b, evs) && n < |b| && i < |b[n].ops| && b[n].ops[i].o == Forget(a)
    requires forall m | i < m < |b[n].ops| :: !Binds(b[n].ops[m].o, a, id)
    requires r < |b[n].files.replicas|
    ensures var f, base := b[n].files, b[n].files.replicas[r].base;
            && base < |f.versions| && (Bound(Held(f, r), a, id) <==> base <= i && Bound(BookAt(f, base), a, id))
    ensures forall k | Possible(b[n], Look(k)) && b[n].ins[k] == Session(id, r, Starting, b[n].ins[k].since, None) ::
              LetIn(After(b[n], Look(k)), k, a) <==> id.subject != "" && Bound(Held(b[n].files, r), a, id)
  {
    var f, ops := b[n].files, b[n].ops;
    RunKeepsOk(b, evs, n);
    var base := f.replicas[r].base;
    assert HoldsItsBase(f, f.replicas[r]);
    hide Bound, BookOf, Possible, Inv, Chained, Good;
    if i < base {
      ForgottenVersion(f, ops, i, a, id);
      UnboundUntilBoundAgain(f, ops, i + 1, base, a, id);
    }
    forall k | Possible(b[n], Look(k)) && b[n].ins[k] == Session(id, r, Starting, b[n].ins[k].since, None)
      ensures LetIn(After(b[n], Look(k)), k, a) <==> id.subject != "" && Bound(Held(f, r), a, id)
    {
      FirstLook(b[n], k, a);
    }
  }

  lemma FirstLook(s: System, k: nat, a: string)
    requires Possible(s, Look(k)) && s.ins[k].phase.Starting? && s.ins[k].basis.None?
    ensures LetIn(After(s, Look(k)), k, a) <==> s.ins[k].id.subject != "" && Bound(Held(s.files, s.ins[k].at), a, s.ins[k].id)
  {
    hide BookOf, Apply;
  }

  /** Forgetting an account and approving it for somebody else leaves it bound to that other pair only. */
  lemma ForgetAndApproveRebinds(b: Book, a: string, id: Ident, other: Ident, who: string, now: int)
    requires Indexed(b) && Bound(b, a, id) && BySubject(b, other.issuer, other.subject) == None && other.subject != ""
    ensures var c := Step(Step(b, Forget(a), now), Approve(a, other.issuer, other.subject, [], who), now);
            Bound(c, a, other) && !Bound(c, a, id)
  {
    hide NormalizeEmail, ValidEmail, ValidName, Sorted;
    assert MappingOk(b, a);
    assert Identity.Clean([]) == Ok([]);
  }

  // --------------------------------------------------------- no subject at all

  lemma EmptySubjectLooks(b: Book, id: Ident, p: Identity.Phase)
    requires id.subject == "" && CallOf(id, p).Lookup? && DecidedFor(p).None?
    ensures DecidedFor(LookedUp(b, id, p)).None?
  {
  }

  lemma EmptySubjectAnswers(b: Book, id: Ident, p: Identity.Phase, o: Op, now: int)
    requires id.subject == "" && CallOf(id, p) == Write(o) && DecidedFor(p).None? && DecidedFor(Answered(p, Do(b, o, now))).Some?
    ensures p.Approving?
  {
  }

  /** The subjects answer for the same accounts, and every account's pair is what it was. */
  ghost predicate SamePairs(x: Book, y: Book) {
    y.bySubject == x.bySubject
    && forall a | a in x.byAccount :: a in y.byAccount
         && y.byAccount[a].issuer == x.byAccount[a].issuer && y.byAccount[a].subject == x.byAccount[a].subject
  }

  ghost function Latest(s: System): Book
    requires |s.files.versions| > 0
  {
    BookAt(s.files, |s.files.versions| - 1)
  }

  lemma EmptySubjectSaves(s: System, k: nat, stamp: Stamp)
    requires SystemOk(s) && Possible(s, Save(k, stamp)) && s.ins[k].id.subject == ""
    ensures |s.files.versions| > 0 && |After(s, Save(k, stamp)).files.versions| > 0
    ensures SamePairs(Latest(s), Latest(After(s, Save(k, stamp))))
  {
    hide Inv, Good, BookOf, Step, Do, Mut, Apply, Answered, SessionOk;
    var x, o := s.ins[k], CallIn(s, k).o;
    WriterHoldsABook(s, x.at);
    EmptySubjectBindsNothing(Held(s.files, x.at), x.id, x.phase, o, s.files.now);
    ReplaceKeepsFile(s.files, s.ops, x.at, o, stamp);
  }

  /** A sign-in without a subject is let in only through an approval, which binds nothing and leaves every pair as it was. */
  lemma EmptySubjectIsNeverBound(s: System, ev: Event, k: nat)
    requires SystemOk(s) && Possible(s, ev) && k in s.ins && s.ins[k].id.subject == ""
    requires DecidedFor(s.ins[k].phase).None? && k in After(s, ev).ins && DecidedFor(After(s, ev).ins[k].phase).Some?
    ensures s.ins[k].phase.Approving? && (ev.Save? || ev.Decline?)
    ensures |s.files.versions| > 0 && |After(s, ev).files.versions| > 0 && SamePairs(Latest(s), Latest(After(s, ev)))
  {
    hide Inv, Good, BookOf, Step, Do, Mut, Apply, LookedUp, Answered, SessionOk, SamePairs, Latest, Records;
    Decides(s, ev, k);
    var x := s.ins[k];
    match ev
    case Look(_) =>
      EmptySubjectLooks(Held(s.files, x.at), x.id, x.phase);
      assert false;
    case Save(_, stamp) =>
      EmptySubjectAnswers(Held(s.files, x.at), x.id, x.phase, CallIn(s, k).o, s.files.now);
      EmptySubjectSaves(s, k, stamp);
    case Decline(_) =>
      EmptySubjectAnswers(Held(s.files, x.at), x.id, x.phase, CallIn(s, k).o, s.files.now);
      NothingSaved(s, k);
  }

  lemma NothingSaved(s: System, k: nat)
    requires SystemOk(s) && Possible(s, Decline(k))
    ensures |s.files.versions| > 0 && |After(s, Decline(k)).files.versions| > 0
    ensures SamePairs(Latest(s), Latest(After(s, Decline(k))))
  {
    hide BookOf, Do, Mut, Apply, Enabled, Good, HoldsItsBase, SessionOk, Answered, Inv;
    StepGrows(s.files, Abandon(s.ins[k].at, Mut(CallIn(s, k).o, s.files.now)));
  }

  // ----------------------------------------- why renames are taken not to fail

  lemma PinIsNew(b: Book, a: string, id: Ident, now: int)
    requires Do(b, Op.Pin(a, id.issuer, id.subject), now).Ok? && Do(b, Op.Pin(a, id.issuer, id.subject), now).value.changed
    ensures !Bound(b, a, id) && Bound(Step(b, Op.Pin(a, id.issuer, id.subject), now), a, id)
  {
  }

  lemma ReplaceFailsEffect(f: State<Mapping>, r: nat, op: Mutation<Mapping>, e: Doc<Mapping>)
    requires Enabled(f, ReplaceFails(r, op)) && op(f.replicas[r].local.mem) == Changed(e)
    requires f.replicas[r].local.loaded && f.replicas[r].local.stamp == f.versions[|f.versions| - 1].stamp
    ensures var g := Apply(f, ReplaceFails(r, op));
            && g.versions == f.versions && r < |g.replicas| && Enabled(g, Stat(r))
            && var h := Apply(g, Stat(r));
               h.versions == f.versions && r < |h.replicas| && h.replicas[r].phase == Ready(false, true) && h.replicas[r].local.mem == e
  {
  }

  /**
   A pin whose file could not be replaced is an error to the person signing in, but stays in that replica's memory: while
   the file's stamp is unchanged the next lookup there finds the pair bound, which no version of the file binds.
   */
  lemma FailedSaveBindsInMemoryOnly(f: State<Mapping>, ops: seq<Done>, r: nat, a: string, id: Ident)
    requires FileOk(f, ops) && Enabled(f, ReplaceFails(r, Mut(Op.Pin(a, id.issuer, id.subject), f.now)))
    requires f.replicas[r].local.loaded && f.replicas[r].local.stamp == f.versions[|f.versions| - 1].stamp
    ensures var g := Apply(f, ReplaceFails(r, Mut(Op.Pin(a, id.issuer, id.subject), f.now)));
            && g.versions == f.versions && r < |g.replicas| && Enabled(g, Stat(r))
            && var h := Apply(g, Stat(r));
               && r < |h.replicas| && h.replicas[r].phase == Ready(false, true)
               && Bound(Held(h, r), a, id) && !Bound(BookAt(h, |h.versions| - 1), a, id)
  {
    hide Good, BookOf, Step, Do, Bound, Chained, Inv, Mut, Apply, DocOf;
    var o := Op.Pin(a, id.issuer, id.subject);
    assert HoldsItsBase(f, f.replicas[r]);
    WriterIsCurrent(f, r);
    var d := f.versions[|f.versions| - 1].doc;
    MutChanges(d, o, f.now);
    PinIsNew(BookOf(d), a, id, f.now);
    ReplaceFailsEffect(f, r, Mut(o, f.now), DocOf(Step(BookOf(d), o, f.now)));
  }

  // ------------------------------------------------ the condition is needed: a run

  ghost predicate Follows(b: seq<System>, evs: seq<Event>) {
    |b| == |evs| + 1 && forall i | 0 <= i < |evs| :: Possible(b[i], evs[i]) && b[i + 1] == After(b[i], evs[i])
  }

  /** A run from one system to another. */
  ghost predicate Leads(s: System, evs: seq<Event>, t: System) {
    exists b :: Follows(b, evs) && b[0] == s && b[|b| - 1] == t
  }

  lemma LeadsOn(s: System, evs: seq<Event>, t: System, more: seq<Event>, u: System)
    requires Leads(s, evs, t) && Leads(t, more, u)
    ensures Leads(s, evs + more, u)
  {
    hide Possible, After;
    var b :| Follows(b, evs) && b[0] == s && b[|b| - 1] == t;
    var c :| Follows(c, more) && c[0] == t && c[|c| - 1] == u;
    var all, steps := b + c[1..], evs + more;
    forall i | 0 <= i < |steps| ensures Possible(all[i], steps[i]) && all[i + 1] == After(all[i], steps[i]) {
      if i < |evs| {
        assert all[i] == b[i] && all[i + 1] == b[i + 1];
      } else {
        assert all[i] == c[i - |evs|] && all[i + 1] == c[i + 1 - |evs|];
      }
    }
    assert Follows(all, steps);
  }

  /** An idle replica whose contents and stamp are those of the last version. */
  ghost predicate UpToDate(f: State<Mapping>, r: nat) {
    && r < |f.replicas| && |f.versions| > 0 && f.holder.None? && f.replicas[r].phase.Idle?
    && f.replicas[r].local.mem == f.versions[|f.versions| - 1].doc
    && (|f.versions| > 1 ==> f.replicas[r].local.loaded && f.replicas[r].local.stamp == f.versions[|f.versions| - 1].stamp)
  }

  function CommitEvents(r: nat, o: Op, stamp: Stamp): seq<Event> {
    [Turn(Lock(r)), Turn(Stat(r)), Operate(r, o, stamp), Turn(PostStat(r))]
  }

  /** What an operator's commit leaves behind. */
  ghost predicate AfterCommit(s: System, t: System, r: nat, o: Op, stamp: Stamp, d: Doc<Mapping>) {
    && UpToDate(t.files, r) && t.files.now == s.files.now && t.ins == s.ins
    && t.files.versions == s.files.versions + [Version(d, stamp)] && t.ops == s.ops + [Done(o, s.files.now)]
    && |t.files.replicas| == |s.files.replicas|
    && forall q | 0 <= q < |s.files.replicas| && q != r :: t.files.replicas[q] == s.files.replicas[q]
  }

  /** A writer that has locked, and found nothing new to load. */
  ghost predicate AboutToCommit(s: System, t: System, r: nat) {
    && r < |s.files.replicas| && |t.files.replicas| == |s.files.replicas|
    && t.ops == s.ops && t.ins == s.ins && t.files.versions == s.files.versions && t.files.now == s.files.now
    && t.files.replicas[r].phase == Ready(true, true) && t.files.replicas[r].local.mem == s.files.replicas[r].local.mem
    && forall q | 0 <= q < |s.files.replicas| && q != r :: t.files.replicas[q] == s.files.replicas[q]
  }

  lemma LockRun(s: System, r: nat) returns (s1: System, t: System)
    requires UpToDate(s.files, r) && (|s.files.versions| == 1 ==> s.files.replicas[r].local.mem == map[])
    ensures Possible(s, Turn(Lock(r))) && s1 == After(s, Turn(Lock(r)))
    ensures Possible(s1, Turn(Stat(r))) && t == After(s1, Turn(Stat(r))) && AboutToCommit(s, t, r)
  {
    s1 := After(s, Turn(Lock(r)));
    t := After(s1, Turn(Stat(r)));
  }

  lemma StoreRun(s: System, r: nat, o: Op, stamp: Stamp, d: Doc<Mapping>) returns (s1: System, t: System)
    requires AboutToCommit(s, s, r) && Mut(o, s.files.now)(s.files.replicas[r].local.mem) == Changed(d)
    requires Prune(d, s.files.now) == d && |s.files.versions| > 0
    requires forall i | 0 <= i < |s.files.versions| :: s.files.versions[i].stamp != stamp
    ensures Possible(s, Operate(r, o, stamp)) && s1 == After(s, Operate(r, o, stamp))
    ensures Possible(s1, Turn(PostStat(r))) && t == After(s1, Turn(PostStat(r))) && AfterCommit(s, t, r, o, stamp, d)
  {
    hide Mut, Prune;
    s1 := After(s, Operate(r, o, stamp));
    t := After(s1, Turn(PostStat(r)));
  }

  lemma CommitRun(s: System, r: nat, o: Op, stamp: Stamp, d: Doc<Mapping>) returns (t: System)
    requires UpToDate(s.files, r) && Mut(o, s.files.now)(s.files.replicas[r].local.mem) == Changed(d) && Prune(d, s.files.now) == d
    requires |s.files.versions| == 1 ==> s.files.replicas[r].local.mem == map[]
    requires forall i | 0 <= i < |s.files.versions| :: s.files.versions[i].stamp != stamp
    ensures Leads(s, CommitEvents(r, o, stamp), t) && AfterCommit(s, t, r, o, stamp, d)
  {
    hide Mut, Prune, Possible, After;
    var s1, s2 := LockRun(s, r);
    var s3;
    s3, t := StoreRun(s2, r, o, stamp, d);
    assert Follows([s, s1, s2, s3, t], CommitEvents(r, o, stamp));
  }

  function ReadEvents(r: nat): seq<Event> { [Turn(Stat(r)), Turn(Read(r)), Turn(Return(r))] }

  lemma ReadSteps(f: State<Mapping>, r: nat) returns (f1: State<Mapping>, f2: State<Mapping>, f3: State<Mapping>)
    requires r < |f.replicas| && |f.versions| > 1 && f.holder.None? && f.replicas[r] == Fresh0()
    requires Prune(f.versions[|f.versions| - 1].doc, f.now) == f.versions[|f.versions| - 1].doc
    ensures Enabled(f, Stat(r)) && f1 == Apply(f, Stat(r)) && Enabled(f1, Read(r)) && f2 == Apply(f1, Read(r))
    ensures Enabled(f2, Return(r)) && f3 == Apply(f2, Return(r))
    ensures UpToDate(f3, r) && f3.now == f.now && f3.versions == f.versions && |f3.replicas| == |f.replicas|
    ensures forall q | 0 <= q < |f.replicas| && q != r :: f3.replicas[q] == f.replicas[q]
  {
    hide Prune;
    f1 := Apply(f, Stat(r));
    f2 := Apply(f1, Read(r));
    f3 := Apply(f2, Return(r));
  }

  lemma ReadRun(s: System, r: nat) returns (t: System)
    requires r < |s.files.replicas| && |s.files.versions| > 1 && s.files.holder.None? && s.files.replicas[r] == Fresh0()
    requires Prune(s.files.versions[|s.files.versions| - 1].doc, s.files.now) == s.files.versions[|s.files.versions| - 1].doc
    ensures Leads(s, ReadEvents(r), t)
    ensures UpToDate(t.files, r) && t.ops == s.ops && t.ins == s.ins && t.files.now == s.files.now
    ensures t.files.versions == s.files.versions && |t.files.replicas| == |s.files.replicas|
    ensures forall q | 0 <= q < |s.files.replicas| && q != r :: t.files.replicas[q] == s.files.replicas[q]
  {
    var f1, f2, f3 := ReadSteps(s.files, r);
    hide UpToDate, Enabled, Apply;
    var s1, s2 := s.(files := f1), s.(files := f2);
    t := s.(files := f3);
    assert Follows([s, s1, s2, t], ReadEvents(r));
  }

  function SignInEvents(k: nat, id: Ident, r: nat, a: Action<Mapping>): seq<Event> {
    [Arrive(k, id, r), Call(k), Turn(a), Look(k)]
  }

  /** A call of a sign-in has begun and its reload is over: nothing to load, or a failed stat. */
  lemma ReloadRun(s: System, k: nat, r: nat, fails: bool) returns (s1: System, t: System)
    requires k in s.ins && s.ins[k].phase.Starting? && s.ins[k].since.None? && s.ins[k].at == r
    requires r < |s.files.replicas| && |s.files.versions| > 0 && s.files.replicas[r].phase.Idle?
    requires !fails ==> UpToDate(s.files, r) && |s.files.versions| > 1
    ensures Possible(s, Call(k)) && s1 == After(s, Call(k))
    ensures var a := if fails then StatFails(r) else Stat(r);
            Possible(s1, Turn(a)) && t == After(s1, Turn(a))
    ensures && t.ops == s.ops && t.files.versions == s.files.versions && |t.files.replicas| == |s.files.replicas|
            && (forall q | 0 <= q < |s.files.replicas| && q != r :: t.files.replicas[q] == s.files.replicas[q])
            && t.files.replicas[r].phase == Ready(false, !fails) && t.files.replicas[r].local.mem == s.files.replicas[r].local.mem
            && t.ins == s.ins[k := s.ins[k].(since := Some(|s.files.versions| - 1))]
  {
    s1 := After(s, Call(k));
    t := After(s1, Turn(if fails then StatFails(r) else Stat(r)));
  }

  lemma LookRun(s: System, k: nat, a: string) returns (t: System)
    requires InCall(s, k) && s.ins[k].phase.Starting? && s.ins[k].basis.None? && s.ins[k].id.subject != "" && |s.files.versions| > 0
    requires s.files.replicas[s.ins[k].at].phase.Ready? && !s.files.replicas[s.ins[k].at].phase.writing
    requires Bound(Held(s.files, s.ins[k].at), a, s.ins[k].id)
    ensures Possible(s, Look(k)) && t == After(s, Look(k)) && LetIn(t, k, a) && t.ins[k].id == s.ins[k].id
    ensures var basis := t.ins[k].basis.value;
            basis.began == s.ins[k].since.value && basis.reloaded == s.files.replicas[s.ins[k].at].phase.ok
    ensures && t.ops == s.ops && t.files.versions == s.files.versions && |t.files.replicas| == |s.files.replicas|
            && (forall q | 0 <= q < |s.files.replicas| && q != s.ins[k].at :: t.files.replicas[q] == s.files.replicas[q])
            && t.ins.Keys == s.ins.Keys && (forall l | l in s.ins && l != k :: t.ins[l] == s.ins[l])
  {
    hide BookOf;
    t := After(s, Look(k));
  }

  /** A sign-in whose first lookup is answered from what its replica holds, after a reload that changed nothing or failed. */
  lemma SignInStarts(s: System, k: nat, id: Ident, r: nat, a: string, fails: bool) returns (t: System)
    requires r < |s.files.replicas| && |s.files.versions| > 0 && s.files.replicas[r].phase.Idle? && k !in s.ins && '\0' !in id.issuer
    requires Bound(BookOf(s.files.replicas[r].local.mem), a, id) && id.subject != ""
    requires !fails ==> UpToDate(s.files, r) && |s.files.versions| > 1
    ensures Leads(s, SignInEvents(k, id, r, if fails then StatFails(r) else Stat(r)), t)
    ensures && LetIn(t, k, a) && t.ins[k].id == id && t.ins[k].basis.value.began == |s.files.versions| - 1
            && t.ins[k].basis.value.reloaded == !fails
            && t.ins.Keys == s.ins.Keys + {k} && (forall l | l in s.ins :: t.ins[l] == s.ins[l])
            && t.ops == s.ops && t.files.versions == s.files.versions && |t.files.replicas| == |s.files.replicas|
            && (forall q | 0 <= q < |s.files.replicas| && q != r :: t.files.replicas[q] == s.files.replicas[q])
  {
    hide BookOf, Bound, LetIn, Apply, Enabled;
    var s1 := After(s, Arrive(k, id, r));
    var s2, s3 := ReloadRun(s1, k, r, fails);
    t := LookRun(s3, k, a);
    hide After, Possible;
    assert Follows([s, s1, s2, s3, t], SignInEvents(k, id, r, if fails then StatFails(r) else Stat(r)));
  }

  const ANN := "ann"
  const FORMER := Ident("iss", "x", [])
  const LATER := Ident("iss", "y", [])

  function Letting(id: Ident): Op { Approve(ANN, id.issuer, id.subject, [], "root") }

  function AnnIs(id: Ident): Book {
    Book(map[ANN := Mapping(ANN, [], id.issuer, id.subject, "root", 0, 0)], map[], map[SubjectKey(id.issuer, id.subject) := ANN])
  }

  lemma LettingGives(id: Ident)
    requires id.subject != ""
    ensures Do(EMPTY, Letting(id), 0) == Ok(Change(AnnIs(id), true)) && Indexed(AnnIs(id)) && Bound(AnnIs(id), ANN, id)
    ensures Do(AnnIs(id), Forget(ANN), 0) == Ok(Change(EMPTY, true))
  {
    assert Identity.Clean([]) == Ok([]) && Identity.Sorted([]) == [];
    var e: map<string, string> := map[];
    assert Adopt([], e, [], ANN) == ([], e);
    StepKeepsIndexed(EMPTY, Letting(id), 0);
    assert Forgotten(AnnIs(id), ANN).value.book == EMPTY;
  }

  lemma MutGives(b: Book, o: Op, c: Book)
    requires Indexed(b) && Do(b, o, 0) == Ok(Change(c, true))
    ensures Mut(o, 0)(DocOf(b)) == Changed(DocOf(c)) && Prune(DocOf(c), 0) == DocOf(c) && BookOf(DocOf(c)) == c
  {
    hide Indexed, BookOf, Do, DocOf, Prune;
    StepKeepsIndexed(b, o, 0);
    BookOfDoc(b);
    BookOfDoc(c);
    GoodNeverLapses(DocOf(c));
  }

  /** The documents of the three commits. */
  lemma ThreeDocs(former: Ident, later: Ident)
    requires former.subject != "" && later.subject != ""
    ensures var d1, d2, d3 := DocOf(AnnIs(former)), DocOf(EMPTY), DocOf(AnnIs(later));
            && d2 == map[] && Prune(d1, 0) == d1 && Prune(d2, 0) == d2 && Prune(d3, 0) == d3
            && Mut(Letting(former), 0)(d2) == Changed(d1) && Mut(Forget(ANN), 0)(d1) == Changed(d2) && Mut(Letting(later), 0)(d2) == Changed(d3)
            && Bound(BookOf(d1), ANN, former) && Bound(BookOf(d3), ANN, later)
  {
    LettingGives(former);
    LettingGives(later);
    assert Indexed(EMPTY) && DocOf(EMPTY) == map[];
    hide Indexed, DocOf, BookOf, AnnIs, Do, Mut, Bound, Letting;
    MutGives(EMPTY, Letting(former), AnnIs(former));
    MutGives(AnnIs(former), Forget(ANN), EMPTY);
    MutGives(EMPTY, Letting(later), AnnIs(later));
  }

  function TwoReplicas(): State<Mapping> {
    State([Version(map[], ZERO_STAMP)], [], [Fresh0(), Fresh0()], None, 0)
  }

  /** Three commits on one replica, the other reading after the first. */
  function ThreeCommits(o1: Op, o2: Op, o3: Op): seq<Event> {
    CommitEvents(0, o1, Stamp(1, 1)) + ReadEvents(1) + CommitEvents(0, o2, Stamp(2, 2)) + CommitEvents(0, o3, Stamp(3, 3))
  }

  /** Replica 0 is up to date, replica 1 idle with contents of its own. */
  ghost predicate Staged(s: System, versions: seq<Version<Mapping>>, ops: seq<Done>, mine: Doc<Mapping>, theirs: Doc<Mapping>) {
    && s.ins == map[] && s.files.versions == versions && s.ops == ops && |s.files.replicas| == 2 && s.files.now == 0
    && UpToDate(s.files, 0) && s.files.replicas[0].local.mem == mine
    && s.files.replicas[1].phase.Idle? && s.files.replicas[1].local.mem == theirs
  }

  lemma FirstCommitRead(o1: Op, d1: Doc<Mapping>) returns (t: System, u: System)
    requires Mut(o1, 0)(map[]) == Changed(d1) && Prune(d1, 0) == d1
    ensures Leads(System(TwoReplicas(), [], map[]), CommitEvents(0, o1, Stamp(1, 1)), t) && Leads(t, ReadEvents(1), u)
    ensures Staged(u, [Version(map[], ZERO_STAMP), Version(d1, Stamp(1, 1))], [Done(o1, 0)], d1, d1)
  {
    hide Mut, Prune, Leads, CommitEvents, ReadEvents;
    t := CommitRun(System(TwoReplicas(), [], map[]), 0, o1, Stamp(1, 1), d1);
    u := ReadRun(t, 1);
  }

  lemma NextCommit(s: System, versions: seq<Version<Mapping>>, ops: seq<Done>, mine: Doc<Mapping>, theirs: Doc<Mapping>,
                   o: Op, stamp: Stamp, d: Doc<Mapping>) returns (t: System)
    requires Staged(s, versions, ops, mine, theirs) && |versions| > 1
    requires Mut(o, 0)(mine) == Changed(d) && Prune(d, 0) == d && forall i | 0 <= i < |versions| :: versions[i].stamp != stamp
    ensures Leads(s, CommitEvents(0, o, stamp), t)
    ensures Staged(t, versions + [Version(d, stamp)], ops + [Done(o, 0)], d, theirs)
  {
    hide Mut, Prune, Leads, CommitEvents;
    t := CommitRun(s, 0, o, stamp, d);
  }

  lemma ThreeCommitsRun(o1: Op, o2: Op, o3: Op, d1: Doc<Mapping>, d2: Doc<Mapping>, d3: Doc<Mapping>) returns (s: System)
    requires Mut(o1, 0)(map[]) == Changed(d1) && Mut(o2, 0)(d1) == Changed(d2) && Mut(o3, 0)(d2) == Changed(d3)
    requires Prune(d1, 0) == d1 && Prune(d2, 0) == d2 && Prune(d3, 0) == d3
    ensures Leads(System(TwoReplicas(), [], map[]), ThreeCommits(o1, o2, o3), s)
    ensures exists versions :: |versions| == 4 && Staged(s, versions, [Done(o1, 0), Done(o2, 0), Done(o3, 0)], d3, d1)
  {
    hide Mut, Prune, Leads, CommitEvents, ReadEvents, Staged;
    var s0 := System(TwoReplicas(), [], map[]);
    var v := [Version(map[], ZERO_STAMP), Version(d1, Stamp(1, 1))];
    var t, u := FirstCommitRead(o1, d1);
    var w := NextCommit(u, v, [Done(o1, 0)], d1, d1, o2, Stamp(2, 2), d2);
    var v' := v + [Version(d2, Stamp(2, 2))];
    s := NextCommit(w, v', [Done(o1, 0)] + [Done(o2, 0)], d2, d1, o3, Stamp(3, 3), d3);
    assert [Done(o1, 0)] + [Done(o2, 0)] + [Done(o3, 0)] == [Done(o1, 0), Done(o2, 0), Done(o3, 0)];
    assert |v' + [Version(d3, Stamp(3, 3))]| == 4;
    LeadsOn(s0, CommitEvents(0, o1, Stamp(1, 1)), t, ReadEvents(1), u);
    LeadsOn(s0, CommitEvents(0, o1, Stamp(1, 1)) + ReadEvents(1), u, CommitEvents(0, o2, Stamp(2, 2)), w);
    LeadsOn(s0, CommitEvents(0, o1, Stamp(1, 1)) + ReadEvents(1) + CommitEvents(0, o2, Stamp(2, 2)), w,
            CommitEvents(0, o3, Stamp(3, 3)), s);
  }

  /** Two sign-ins, one on each replica, the second with a stat that fails. */
  lemma TwoSignIns(s: System, versions: seq<Version<Mapping>>, ops: seq<Done>, mine: Doc<Mapping>, theirs: Doc<Mapping>,
                   id: Ident, other: Ident, a: string) returns (t: System)
    requires Staged(s, versions, ops, mine, theirs) && |versions| > 1 && '\0' !in id.issuer && '\0' !in other.issuer
    requires Bound(BookOf(mine), a, id) && Bound(BookOf(theirs), a, other) && id.subject != "" && other.subject != ""
    ensures Leads(s, SignInEvents(0, id, 0, Stat(0)) + SignInEvents(1, other, 1, StatFails(1)), t)
    ensures t.ops == ops && LetIn(t, 0, a) && t.ins[0].id == id && LetIn(t, 1, a) && t.ins[1].id == other
    ensures t.ins[0].basis.value.began == t.ins[1].basis.value.began == |versions| - 1
    ensures t.ins[0].basis.value.reloaded && !t.ins[1].basis.value.reloaded
  {
    hide BookOf, Leads, Bound, DecidedFor, SignInEvents;
    var u := SignInStarts(s, 0, id, 0, a, false);
    t := SignInStarts(u, 1, other, 1, a, true);
    LeadsOn(s, SignInEvents(0, id, 0, Stat(0)), u, SignInEvents(1, other, 1, StatFails(1)), t);
  }

  /** From a pair's binding, and a rebinding the other replica does not see, to both pairs being let in. */
  lemma BothPairsRun(o1: Op, o2: Op, o3: Op, d1: Doc<Mapping>, d2: Doc<Mapping>, d3: Doc<Mapping>, a: string, former: Ident, later: Ident)
    returns (b: seq<System>, evs: seq<Event>)
    requires Mut(o1, 0)(map[]) == Changed(d1) && Mut(o2, 0)(d1) == Changed(d2) && Mut(o3, 0)(d2) == Changed(d3)
    requires Prune(d1, 0) == d1 && Prune(d2, 0) == d2 && Prune(d3, 0) == d3
    requires Bound(BookOf(d1), a, former) && Bound(BookOf(d3), a, later) && former.subject != "" && later.subject != ""
    requires '\0' !in former.issuer && '\0' !in later.issuer
    ensures SignInRun(b, evs)
    ensures var s := b[|b| - 1];
            && LetIn(s, 0, a) && s.ins[0].id == later && LetIn(s, 1, a) && s.ins[1].id == former
            && s.ops == [Done(o1, 0), Done(o2, 0), Done(o3, 0)]
            && s.ins[0].basis.value.began == s.ins[1].basis.value.began == 3
            && s.ins[0].basis.value.reloaded && !s.ins[1].basis.value.reloaded
  {
    hide BookOf, Mut, Leads, Prune, Bound, Staged, ThreeCommits, SignInEvents, LetIn;
    var s0 := System(TwoReplicas(), [], map[]);
    var s := ThreeCommitsRun(o1, o2, o3, d1, d2, d3);
    var ops := [Done(o1, 0), Done(o2, 0), Done(o3, 0)];
    var v :| |v| == 4 && Staged(s, v, ops, d3, d1);
    var t := TwoSignIns(s, v, ops, d3, d1, later, former, a);
    var more := SignInEvents(0, later, 0, Stat(0)) + SignInEvents(1, former, 1, StatFails(1));
    evs := ThreeCommits(o1, o2, o3) + more;
    LeadsOn(s0, ThreeCommits(o1, o2, o3), s, more, t);
    assert Init(TwoReplicas());
    b := RunOf(s0, evs, t);
  }

  /**
   Without the condition on reloads trust on first use is false: after the account was forgotten and approved for another
   pair, that pair and, on a replica whose stat then fails, the former pair are both let in as it.
   */
  lemma FailedStatLetsTheFormerPairIn() returns (b: seq<System>, evs: seq<Event>)
    ensures SignInRun(b, evs)
    ensures var s := b[|b| - 1];
            && LetIn(s, 0, ANN) && s.ins[0].id == LATER && LetIn(s, 1, ANN) && s.ins[1].id == FORMER
            && s.ops == [Done(Letting(FORMER), 0), Done(Forget(ANN), 0), Done(Letting(LATER), 0)]
            && s.ins[0].basis.value.began == s.ins[1].basis.value.began == 3
            && s.ins[0].basis.value.reloaded && !s.ins[1].basis.value.reloaded
  {
    ThreeDocs(FORMER, LATER);
    hide DocOf, BookOf, AnnIs, Mut, Prune, Bound, Letting, LetIn, SignInRun;
    b, evs := BothPairsRun(Letting(FORMER), Forget(ANN), Letting(LATER), DocOf(AnnIs(FORMER)), DocOf(EMPTY), DocOf(AnnIs(LATER)),
                           ANN, FORMER, LATER);
  }

  lemma RunOf(s: System, evs: seq<Event>, t: System) returns (b: seq<System>)
    requires Leads(s, evs, t) && Init(s.files) && s.ops == [] && s.ins == map[]
    ensures SignInRun(b, evs) && b[|b| - 1] == t
  {
    hide Possible, After;
    b :| Follows(b, evs) && b[0] == s && b[|b| - 1] == t;
  }
}
