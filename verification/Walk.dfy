/**
 The bounded breadth-first walk (internal/vfs/walk.go).

 A path below the starting directory is the sequence of its names.  What reading a directory
 gives is a function of its path: no directory is read twice.

 `Order` is the breadth-first order written down without any limit.  Whatever ends the walk
 early (the cap, the depth, a cancelled request, an error or the caller having had enough),
 what it has visited by then is a beginning of that order, and the lemmas after the methods
 say what the order holds.
 */
module Walk {
  import opened Common
  import Vfs

  type Rel = seq<string>

  datatype Entry = Entry(name: string, isDir: bool)

  /** What reading a directory gives; `Unreadable` stands for EACCES, EPERM, ENOENT and ENOTDIR. */
  datatype Read = Entries(es: seq<Entry>) | Unreadable | Broken

  type Tree = Rel -> Read

  datatype Limits = Limits(depth: nat, visit: int)

  datatype WalkResult = WalkResult(visited: nat, truncated: bool)

  /** Why the walk, or its pass over one directory, came to an end. */
  datatype Ending = Done | OutOfVisits | Cancelled | StoppedByVisit | Failed

  predicate Hidden(name: string) { Vfs.IsTempName(name) || name == Vfs.TRASH_DIR }

  // ------------------------------------------------------ the breadth-first order

  function Children(dir: Rel, es: seq<Entry>): seq<Rel> {
    if es == [] then [] else (if Hidden(es[0].name) then [] else [dir + [es[0].name]]) + Children(dir, es[1..])
  }

  function Subdirs(dir: Rel, es: seq<Entry>): seq<Rel> {
    if es == [] then []
    else (if Hidden(es[0].name) || !es[0].isDir then [] else [dir + [es[0].name]]) + Subdirs(dir, es[1..])
  }

  function EntriesOf(tree: Tree, dir: Rel): seq<Entry> { if tree(dir).Entries? then tree(dir).es else [] }

  function LevelCalls(tree: Tree, level: seq<Rel>): seq<Rel> {
    if level == [] then []
    else LevelCalls(tree, level[..|level| - 1]) + Children(level[|level| - 1], EntriesOf(tree, level[|level| - 1]))
  }

  function NextLevel(tree: Tree, level: seq<Rel>): seq<Rel> {
    if level == [] then []
    else NextLevel(tree, level[..|level| - 1]) + Subdirs(level[|level| - 1], EntriesOf(tree, level[|level| - 1]))
  }

  /** The directories k levels down, in the order they are met. */
  function LevelAt(tree: Tree, k: nat): seq<Rel> {
    if k == 0 then [[]] else NextLevel(tree, LevelAt(tree, k - 1))
  }

  /** Everything in the directories of the first k levels, in breadth-first order. */
  function Order(tree: Tree, k: nat): seq<Rel> {
    if k == 0 then [] else Order(tree, k - 1) + LevelCalls(tree, LevelAt(tree, k - 1))
  }

  lemma {:induction false} ChildrenSnoc(dir: Rel, es: seq<Entry>, e: Entry)
    ensures Children(dir, es + [e]) == Children(dir, es) + (if Hidden(e.name) then [] else [dir + [e.name]])
    ensures Subdirs(dir, es + [e]) == Subdirs(dir, es) + (if Hidden(e.name) || !e.isDir then [] else [dir + [e.name]])
  {
    if es != [] {
      assert (es + [e])[1..] == es[1..] + [e];
      ChildrenSnoc(dir, es[1..], e);
    } else {
      assert (es + [e])[1..] == [];
    }
  }

  lemma {:induction false} ChildrenPrefix(dir: Rel, es: seq<Entry>, j: nat)
    requires j <= |es|
    ensures Children(dir, es[..j]) <= Children(dir, es)
    ensures j < |es| && !Hidden(es[j].name) ==> |Children(dir, es[..j])| < |Children(dir, es)|
    decreases |es| - j
  {
    if j < |es| {
      assert es[..j + 1] == es[..j] + [es[j]];
      ChildrenSnoc(dir, es[..j], es[j]);
      ChildrenPrefix(dir, es, j + 1);
    } else {
      assert es[..j] == es;
    }
  }

  lemma {:induction false} LevelPrefix(tree: Tree, level: seq<Rel>, i: nat)
    requires i <= |level|
    ensures LevelCalls(tree, level[..i]) <= LevelCalls(tree, level)
    ensures NextLevel(tree, level[..i]) <= NextLevel(tree, level)
    decreases |level| - i
  {
    if i < |level| {
      LevelStep(tree, level, i);
      LevelPrefix(tree, level, i + 1);
    } else {
      assert level[..i] == level;
    }
  }

  lemma LevelStep(tree: Tree, level: seq<Rel>, i: nat)
    requires i < |level|
    ensures LevelCalls(tree, level[..i + 1]) == LevelCalls(tree, level[..i]) + Children(level[i], EntriesOf(tree, level[i]))
    ensures NextLevel(tree, level[..i + 1]) == NextLevel(tree, level[..i]) + Subdirs(level[i], EntriesOf(tree, level[i]))
  {
    assert level[..i + 1][..i] == level[..i];
  }

  lemma StillPrefix(a: seq<Rel>, b: seq<Rel>, x: seq<Rel>)
    requires a <= b
    ensures a <= b + x
  {
  }

  lemma PrefixUnder(base: seq<Rel>, a: seq<Rel>, b: seq<Rel>)
    requires a <= b
    ensures base + a <= base + b
  {
  }

  lemma PrefixOfPrefix(a: seq<Rel>, b: seq<Rel>, c: seq<Rel>)
    requires a <= b && b <= c
    ensures a <= c && |a| <= |b| <= |c|
  {
  }

  lemma OrderStep(tree: Tree, m: nat)
    requires m > 0
    ensures Order(tree, m) == Order(tree, m - 1) + LevelCalls(tree, LevelAt(tree, m - 1))
  {
  }

  lemma {:induction false} OrderGrows(tree: Tree, k: nat, m: nat)
    requires k <= m
    ensures Order(tree, k) <= Order(tree, m)
    decreases m
  {
    hide Order, LevelCalls, LevelAt;
    if k < m {
      OrderGrows(tree, k, m - 1);
      OrderStep(tree, m);
      StillPrefix(Order(tree, k), Order(tree, m - 1), LevelCalls(tree, LevelAt(tree, m - 1)));
    }
  }

  lemma {:induction false} EmptyLevelEndsTheOrder(tree: Tree, k: nat, m: nat)
    requires k <= m && LevelAt(tree, k) == []
    ensures Order(tree, m) == Order(tree, k) && LevelAt(tree, m) == []
    decreases m
  {
    if k < m {
      EmptyLevelEndsTheOrder(tree, k, m - 1);
    }
  }

  /** The directories of the first k levels, in the order they are read. */
  function Dirs(tree: Tree, k: nat): seq<Rel> {
    if k == 0 then [] else Dirs(tree, k - 1) + LevelAt(tree, k - 1)
  }

  lemma {:induction false} CallsJoined(tree: Tree, a: seq<Rel>, b: seq<Rel>)
    ensures LevelCalls(tree, a + b) == LevelCalls(tree, a) + LevelCalls(tree, b)
    decreases |b|
  {
    hide LevelCalls, EntriesOf, Children;
    if b == [] {
      assert a + b == a;
      NoCalls(tree);
    } else {
      var n := |b| - 1;
      CallsJoined(tree, a, b[..n]);
      CallsSnoc(tree, a + b[..n], b[n]);
      CallsSnoc(tree, b[..n], b[n]);
      assert a + b == (a + b[..n]) + [b[n]] && b == b[..n] + [b[n]];
      Regroup(LevelCalls(tree, a), LevelCalls(tree, b[..n]), Children(b[n], EntriesOf(tree, b[n])));
    }
  }

  lemma NoCalls(tree: Tree)
    ensures LevelCalls(tree, []) == []
  {
  }

  lemma CallsSnoc(tree: Tree, a: seq<Rel>, dir: Rel)
    ensures LevelCalls(tree, a + [dir]) == LevelCalls(tree, a) + Children(dir, EntriesOf(tree, dir))
  {
    assert (a + [dir])[..|a|] == a;
  }

  /** The order is what is in the directories, one after another. */
  lemma {:induction false} OrderIsDirByDir(tree: Tree, k: nat)
    ensures Order(tree, k) == LevelCalls(tree, Dirs(tree, k))
  {
    hide LevelCalls, LevelAt;
    if k == 0 {
      NoCalls(tree);
    } else {
      OrderIsDirByDir(tree, k - 1);
      CallsJoined(tree, Dirs(tree, k - 1), LevelAt(tree, k - 1));
    }
  }

  lemma {:induction false} DirsGrow(tree: Tree, k: nat, m: nat)
    requires k <= m
    ensures Dirs(tree, k) <= Dirs(tree, m)
    decreases m
  {
    hide LevelAt;
    if k < m {
      DirsGrow(tree, k, m - 1);
    }
  }

  /** The walk has visited everything in the first n directories and nothing else. */
  ghost predicate AtDirectory(tree: Tree, k: nat, n: nat, calls: seq<Rel>) {
    n < |Dirs(tree, k)| && calls == LevelCalls(tree, Dirs(tree, k)[..n])
  }

  lemma DirectoryReached(tree: Tree, k: nat, i: nat, calls: seq<Rel>, m: nat)
    requires i < |LevelAt(tree, k)| && calls == Order(tree, k) + LevelCalls(tree, LevelAt(tree, k)[..i]) && k < m
    ensures AtDirectory(tree, m, |Dirs(tree, k)| + i, calls) && Dirs(tree, m)[|Dirs(tree, k)| + i] == LevelAt(tree, k)[i]
  {
    hide LevelAt, Order, LevelCalls;
    var level := LevelAt(tree, k);
    OrderIsDirByDir(tree, k);
    CallsJoined(tree, Dirs(tree, k), level[..i]);
    DirsGrow(tree, k + 1, m);
    DirsStep(tree, k);
    assert Dirs(tree, m)[..|Dirs(tree, k)| + i] == Dirs(tree, k) + level[..i];
  }

  lemma DirsStep(tree: Tree, k: nat)
    ensures Dirs(tree, k + 1) == Dirs(tree, k) + LevelAt(tree, k)
  {
  }

  /** What has been visited when directory i of level k has been read up to entry j. */
  ghost predicate Progress(tree: Tree, k: nat, i: nat, j: nat, calls: seq<Rel>) {
    var level := LevelAt(tree, k);
    i < |level| && j <= |EntriesOf(tree, level[i])|
    && calls == Order(tree, k) + LevelCalls(tree, level[..i]) + Children(level[i], EntriesOf(tree, level[i])[..j])
  }

  lemma ProgressIsAPrefix(tree: Tree, k: nat, i: nat, j: nat, calls: seq<Rel>, m: nat)
    requires Progress(tree, k, i, j, calls) && k < m
    ensures calls <= Order(tree, m)
    ensures var es := EntriesOf(tree, LevelAt(tree, k)[i]);
            j < |es| && !Hidden(es[j].name) ==> |calls| < |Order(tree, m)|
  {
    var level := LevelAt(tree, k);
    var es := EntriesOf(tree, level[i]);
    var start := Order(tree, k);
    ChildrenPrefix(level[i], es, j);
    PrefixUnder(start + LevelCalls(tree, level[..i]), Children(level[i], es[..j]), Children(level[i], es));
    LevelStep(tree, level, i);
    var full := start + LevelCalls(tree, level[..i + 1]);
    Regroup(start, LevelCalls(tree, level[..i]), Children(level[i], es));
    LevelPrefix(tree, level, i + 1);
    PrefixUnder(start, LevelCalls(tree, level[..i + 1]), LevelCalls(tree, level));
    OrderGrows(tree, k + 1, m);
    PrefixOfPrefix(full, Order(tree, k + 1), Order(tree, m));
    PrefixOfPrefix(calls, full, Order(tree, m));
  }

  lemma Regroup(a: seq<Rel>, b: seq<Rel>, c: seq<Rel>)
    ensures (a + b) + c == a + (b + c)
  {
  }

  // -------------------------------------------------------------------- the walk

  /** Reads one directory's entries; `calls` is what visit has been called with, and answered `wants` to. */
  method VisitDir(dir: Rel, es: seq<Entry>, wants: nat -> bool, visit: int, descend: bool,
                  calls0: seq<Rel>, next0: seq<Rel>, deeper0: bool)
    returns (calls: seq<Rel>, next: seq<Rel>, deeper: bool, ending: Ending, j: nat)
    ensures j <= |es| && calls == calls0 + Children(dir, es[..j])
    ensures |calls| <= |calls0| || |calls| <= visit
    ensures ending.Done? || ending.OutOfVisits? || ending.StoppedByVisit?
    ensures ending.Done? ==> j == |es| && next == next0 + (if descend then Subdirs(dir, es) else [])
    ensures ending.Done? ==> deeper == (deeper0 || (!descend && Subdirs(dir, es) != []))
    ensures ending.OutOfVisits? ==> j < |es| && !Hidden(es[j].name) && |calls| >= visit
    ensures ending.StoppedByVisit? ==> |calls0| < |calls| && !wants(|calls| - 1)
    ensures forall m: nat | |calls0| <= m < |calls| - (if ending.StoppedByVisit? then 1 else 0) :: wants(m)
  {
    calls, next, deeper, ending, j := calls0, next0, deeper0, Done, 0;
    while j < |es|
      invariant j <= |es|
      invariant calls == calls0 + Children(dir, es[..j])
      invariant |calls| <= |calls0| || |calls| <= visit
      invariant next == next0 + (if descend then Subdirs(dir, es[..j]) else [])
      invariant deeper == (deeper0 || (!descend && Subdirs(dir, es[..j]) != []))
      invariant |calls0| <= |calls| && forall m: nat | |calls0| <= m < |calls| :: wants(m)
    {
      var e := es[j];
      ChildrenSnoc(dir, es[..j], e);
      assert es[..j + 1] == es[..j] + [e];
      if Hidden(e.name) {
        j := j + 1;
        continue;
      }
      if |calls| >= visit {
        ending := OutOfVisits;
        return;
      }
      var rel := dir + [e.name];
      calls := calls + [rel];
      j := j + 1;
      if !wants(|calls| - 1) {
        ending := StoppedByVisit;
        return;
      }
      if e.isDir {
        if descend {
          next := next + [rel];
        } else {
          deeper := true;
        }
      }
    }
    assert es[..j] == es;
  }

  /**
   Why a walk of k levels ended where it did: the cap is reached and something is left; the check before a directory, the
   first to fail, was answered no; that directory could not be read; or visit answered no to the last entry.
   */
  ghost predicate Justified(how: Ending, tree: Tree, alive: nat -> bool, wants: nat -> bool, calls: seq<Rel>, visit: int, k: nat) {
    match how
    case Done => true
    case OutOfVisits => visit <= |calls| < |Order(tree, k)|
    case Cancelled => exists n: nat :: AtDirectory(tree, k, n, calls) && !alive(n)
    case StoppedByVisit => 0 < |calls| && !wants(|calls| - 1)
    case Failed => exists n: nat :: AtDirectory(tree, k, n, calls) && tree(Dirs(tree, k)[n]).Broken?
  }

  /** Before the end every answer was yes. */
  ghost predicate WantedAll(how: Ending, wants: nat -> bool, calls: seq<Rel>) {
    forall m: nat | m < |calls| - (if how.StoppedByVisit? then 1 else 0) :: wants(m)
  }

  ghost predicate AliveUntil(alive: nat -> bool, n: nat) { forall m: nat | m < n :: alive(m) }

  /** Reads every directory of one level. */
  method WalkLevel(tree: Tree, alive: nat -> bool, wants: nat -> bool, limits: Limits, depth: nat, level: seq<Rel>,
                   calls0: seq<Rel>, checks0: nat)
    returns (calls: seq<Rel>, next: seq<Rel>, deeper: bool, how: Ending, checks: nat)
    requires depth <= limits.depth && level == LevelAt(tree, depth) && calls0 == Order(tree, depth)
    requires calls0 == [] || |calls0| <= limits.visit
    requires checks0 == |Dirs(tree, depth)| && AliveUntil(alive, checks0) && WantedAll(Done, wants, calls0)
    ensures calls == [] || |calls| <= limits.visit
    ensures calls <= Order(tree, limits.depth + 1)
    ensures Justified(how, tree, alive, wants, calls, limits.visit, limits.depth + 1)
    ensures WantedAll(how, wants, calls) && AliveUntil(alive, checks)
    ensures how.Done? ==> checks == |Dirs(tree, depth + 1)|
    ensures how.Cancelled? ==> AtDirectory(tree, limits.depth + 1, checks, calls) && !alive(checks)
    ensures how.Done? ==> calls == Order(tree, depth + 1)
    ensures how.Done? ==> next == if depth < limits.depth then LevelAt(tree, depth + 1) else []
    ensures how.Done? ==> (deeper <==> depth == limits.depth && LevelAt(tree, depth + 1) != [])
  {
    hide Order, LevelAt, Children, Subdirs, LevelCalls, NextLevel, EntriesOf, Dirs, AtDirectory;
    calls, next, deeper, how, checks := calls0, [], false, Done, checks0;
    LevelStarts(tree, depth);
    DirsStep(tree, depth);
    for i := 0 to |level|
      invariant how.Done? && calls == Order(tree, depth) + LevelCalls(tree, level[..i])
      invariant calls == [] || |calls| <= limits.visit
      invariant next == if depth < limits.depth then NextLevel(tree, level[..i]) else []
      invariant deeper <==> depth == limits.depth && NextLevel(tree, level[..i]) != []
      invariant checks == checks0 + i && AliveUntil(alive, checks) && WantedAll(Done, wants, calls)
    {
      var dir := level[i];
      ghost var before := calls;
      DirectoryStarts(tree, depth, i, calls, limits.depth + 1);
      DirectoryReached(tree, depth, i, calls, limits.depth + 1);
      if !alive(checks) {
        how := Cancelled;
        return;
      }
      checks := checks + 1;
      match tree(dir) {
        case Unreadable =>
        case Broken =>
          how := Failed;
          return;
        case Entries(es) =>
          var j;
          calls, next, deeper, how, j := VisitDir(dir, es, wants, limits.visit, depth < limits.depth, calls, next, deeper);
          DirectoryVisited(tree, depth, i, es, before, calls, j, limits.depth + 1);
          if !how.Done? { return; }
      }
    }
    assert level[..|level|] == level;
    LevelEnds(tree, depth, limits.depth + 1);
  }

  lemma LevelStarts(tree: Tree, k: nat)
    ensures Order(tree, k) + LevelCalls(tree, LevelAt(tree, k)[..0]) == Order(tree, k)
    ensures NextLevel(tree, LevelAt(tree, k)[..0]) == []
  {
  }

  lemma LevelEnds(tree: Tree, k: nat, m: nat)
    requires k < m
    ensures Order(tree, k + 1) == Order(tree, k) + LevelCalls(tree, LevelAt(tree, k)) <= Order(tree, m)
    ensures LevelAt(tree, k + 1) == NextLevel(tree, LevelAt(tree, k))
  {
    OrderStep(tree, k + 1);
    OrderGrows(tree, k + 1, m);
  }

  lemma DirectoryStarts(tree: Tree, k: nat, i: nat, calls: seq<Rel>, m: nat)
    requires i < |LevelAt(tree, k)| && calls == Order(tree, k) + LevelCalls(tree, LevelAt(tree, k)[..i]) && k < m
    ensures calls <= Order(tree, m)
    ensures var level := LevelAt(tree, k);
            !tree(level[i]).Entries? ==> LevelCalls(tree, level[..i + 1]) == LevelCalls(tree, level[..i])
                                         && NextLevel(tree, level[..i + 1]) == NextLevel(tree, level[..i])
  {
    StartOfDirectory(tree, k, i, calls);
    ProgressIsAPrefix(tree, k, i, 0, calls, m);
    LevelStep(tree, LevelAt(tree, k), i);
    NothingInside(LevelAt(tree, k)[i]);
  }

  lemma DirectoryVisited(tree: Tree, k: nat, i: nat, es: seq<Entry>, before: seq<Rel>, calls: seq<Rel>, j: nat, m: nat)
    requires i < |LevelAt(tree, k)| && tree(LevelAt(tree, k)[i]) == Entries(es) && j <= |es| && k < m
    requires before == Order(tree, k) + LevelCalls(tree, LevelAt(tree, k)[..i])
    requires calls == before + Children(LevelAt(tree, k)[i], es[..j])
    ensures calls <= Order(tree, m)
    ensures j < |es| && !Hidden(es[j].name) ==> |calls| < |Order(tree, m)|
    ensures var level := LevelAt(tree, k);
            NextLevel(tree, level[..i + 1]) == NextLevel(tree, level[..i]) + Subdirs(level[i], es)
            && (j == |es| ==> calls == Order(tree, k) + LevelCalls(tree, level[..i + 1]))
  {
    hide Order, LevelAt, Children, Subdirs, LevelCalls, NextLevel;
    var level := LevelAt(tree, k);
    assert Progress(tree, k, i, j, calls);
    ProgressIsAPrefix(tree, k, i, j, calls, m);
    LevelStep(tree, level, i);
    if j == |es| {
      assert es[..j] == es;
      Regroup(Order(tree, k), LevelCalls(tree, level[..i]), Children(level[i], es));
    }
  }

  method Walk(tree: Tree, alive: nat -> bool, wants: nat -> bool, limits: Limits)
    returns (res: WalkResult, how: Ending, calls: seq<Rel>)
    // Never more than the cap, and always a beginning of the breadth-first order.
    ensures res.visited == |calls| && calls <= Order(tree, limits.depth + 1)
    ensures |calls| <= if limits.visit > 0 then limits.visit else 0
    // Nothing is left out without saying so, and nothing is said without a reason.
    ensures how.Done? && !res.truncated ==>
              calls == Order(tree, limits.depth + 1) && LevelAt(tree, limits.depth + 1) == []
    ensures how.Done? ==> calls == Order(tree, limits.depth + 1)
    ensures how.Done? && res.truncated ==> LevelAt(tree, limits.depth + 1) != []
    ensures !how.Done? ==> (res.truncated <==> how.OutOfVisits? || how.Cancelled?)
    ensures Justified(how, tree, alive, wants, calls, limits.visit, limits.depth + 1) && WantedAll(how, wants, calls)
    ensures how.Cancelled? ==> exists n: nat :: AtDirectory(tree, limits.depth + 1, n, calls) && !alive(n) && AliveUntil(alive, n)
    // So a tree within the limits is walked to its end unless somebody stops the walk or it cannot be read.
    ensures |Order(tree, limits.depth + 1)| <= limits.visit ==> !how.OutOfVisits?
  {
    hide Order, LevelAt, Justified, Dirs, AtDirectory;
    StartOfOrder(tree);
    StartOfDirs(tree);
    calls, how := [], Done;
    var checks, depth := 0, 0;
    var level: seq<Rel> := [[]];
    var truncated := false;
    OrderGrows(tree, 0, limits.depth + 1);
    while depth <= limits.depth && |level| > 0
      invariant depth <= limits.depth + 1 && calls == Order(tree, depth)
      invariant calls == [] || |calls| <= limits.visit
      invariant depth <= limits.depth ==> !truncated && level == LevelAt(tree, depth)
      invariant depth == limits.depth + 1 ==> (truncated <==> LevelAt(tree, depth) != [])
      invariant checks == |Dirs(tree, depth)| && AliveUntil(alive, checks) && WantedAll(Done, wants, calls)
      decreases limits.depth + 1 - depth
    {
      var deeper;
      calls, level, deeper, how, checks := WalkLevel(tree, alive, wants, limits, depth, level, calls, checks);
      if !how.Done? {
        NotWithinLimits(how, tree, alive, wants, calls, limits.visit, limits.depth + 1);
        return WalkResult(|calls|, how.OutOfVisits? || how.Cancelled?), how, calls;
      }
      if deeper {
        truncated := true;
      }
      depth := depth + 1;
    }
    if depth <= limits.depth {
      EmptyLevelEndsTheOrder(tree, depth, limits.depth + 1);
    }
    FinishedIsJustified(tree, alive, wants, calls, limits.visit, limits.depth + 1);
    return WalkResult(|calls|, truncated), Done, calls;
  }

  lemma NotWithinLimits(how: Ending, tree: Tree, alive: nat -> bool, wants: nat -> bool, calls: seq<Rel>, visit: int, k: nat)
    requires Justified(how, tree, alive, wants, calls, visit, k)
    ensures |Order(tree, k)| <= visit ==> !how.OutOfVisits?
  {
  }

  lemma FinishedIsJustified(tree: Tree, alive: nat -> bool, wants: nat -> bool, calls: seq<Rel>, visit: int, k: nat)
    ensures Justified(Done, tree, alive, wants, calls, visit, k)
  {
  }

  lemma StartOfDirs(tree: Tree)
    ensures Dirs(tree, 0) == []
  {
  }

  lemma StartOfOrder(tree: Tree)
    ensures Order(tree, 0) == [] && LevelAt(tree, 0) == [[]]
  {
  }

  lemma NothingInside(dir: Rel)
    ensures Children(dir, []) == [] && Subdirs(dir, []) == []
  {
  }

  lemma StartOfDirectory(tree: Tree, k: nat, i: nat, calls: seq<Rel>)
    requires i < |LevelAt(tree, k)| && calls == Order(tree, k) + LevelCalls(tree, LevelAt(tree, k)[..i])
    ensures Progress(tree, k, i, 0, calls)
  {
    NothingInside(LevelAt(tree, k)[i]);
  }

  // ------------------------------------------------------- what the order holds

  function ParentOf(c: Rel): Rel
    requires c != []
  {
    c[..|c| - 1]
  }

  function NameOf(c: Rel): string
    requires c != []
  {
    c[|c| - 1]
  }

  ghost predicate Listed(es: seq<Entry>, name: string, asDir: bool) {
    exists j | 0 <= j < |es| :: es[j].name == name && !Hidden(name) && (asDir ==> es[j].isDir)
  }

  /** Reached from the start through directories that can be read, past nothing hidden. */
  ghost predicate Reachable(tree: Tree, c: Rel, asDir: bool)
    decreases |c|
  {
    c == [] || (Reachable(tree, ParentOf(c), true) && Listed(EntriesOf(tree, ParentOf(c)), NameOf(c), asDir))
  }

  lemma {:induction false} InDirectory(dir: Rel, es: seq<Entry>, c: Rel)
    ensures c in Children(dir, es) <==> c != [] && ParentOf(c) == dir && Listed(es, NameOf(c), false)
    ensures c in Subdirs(dir, es) <==> c != [] && ParentOf(c) == dir && Listed(es, NameOf(c), true)
  {
    if es != [] {
      InDirectory(dir, es[1..], c);
      ListedCons(es, c);
      assert c == dir + [es[0].name] <==> c != [] && ParentOf(c) == dir && NameOf(c) == es[0].name;
    }
  }

  lemma ListedCons(es: seq<Entry>, c: Rel)
    requires es != []
    ensures c != [] ==> forall asDir ::
              Listed(es, NameOf(c), asDir)
              <==> Listed(es[1..], NameOf(c), asDir)
                   || (es[0].name == NameOf(c) && !Hidden(es[0].name) && (asDir ==> es[0].isDir))
  {
    if c != [] {
      forall asDir ensures Listed(es[1..], NameOf(c), asDir) ==> Listed(es, NameOf(c), asDir) {
        if Listed(es[1..], NameOf(c), asDir) {
          var j :| 0 <= j < |es| - 1 && es[1..][j].name == NameOf(c) && (asDir ==> es[1..][j].isDir);
          assert es[j + 1].name == NameOf(c);
        }
      }
    }
  }

  lemma {:induction false} InLevel(tree: Tree, level: seq<Rel>, c: Rel)
    ensures c in LevelCalls(tree, level) <==>
              c != [] && ParentOf(c) in level && Listed(EntriesOf(tree, ParentOf(c)), NameOf(c), false)
    ensures c in NextLevel(tree, level) <==>
              c != [] && ParentOf(c) in level && Listed(EntriesOf(tree, ParentOf(c)), NameOf(c), true)
    decreases |level|
  {
    hide Listed, EntriesOf, Children, Subdirs;
    if level != [] {
      var n := |level| - 1;
      InLevel(tree, level[..n], c);
      InDirectory(level[n], EntriesOf(tree, level[n]), c);
      assert level == level[..n] + [level[n]];
    }
  }

  /** Level k holds exactly the directories k levels down. */
  lemma {:induction false} LevelHolds(tree: Tree, k: nat, d: Rel)
    ensures d in LevelAt(tree, k) <==> |d| == k && Reachable(tree, d, true)
    decreases k
  {
    hide Listed, EntriesOf;
    if k > 0 {
      InLevel(tree, LevelAt(tree, k - 1), d);
      if d != [] {
        LevelHolds(tree, k - 1, ParentOf(d));
      }
    }
  }

  lemma ReachableStep(tree: Tree, c: Rel, asDir: bool)
    ensures Reachable(tree, c, asDir) <==>
              c == [] || (Reachable(tree, ParentOf(c), true) && Listed(EntriesOf(tree, ParentOf(c)), NameOf(c), asDir))
  {
  }

  /** The order holds exactly what can be reached within k levels. */
  lemma {:induction false} OrderHolds(tree: Tree, k: nat, c: Rel)
    ensures c in Order(tree, k) <==> 0 < |c| <= k && Reachable(tree, c, false)
    decreases k
  {
    hide Listed, EntriesOf, LevelAt, LevelCalls, Order, Reachable;
    ReachableStep(tree, c, false);
    if k == 0 {
      StartOfOrder(tree);
    } else {
      OrderStep(tree, k);
      OrderHolds(tree, k - 1, c);
      InLevel(tree, LevelAt(tree, k - 1), c);
      if c != [] {
        LevelHolds(tree, k - 1, ParentOf(c));
      }
    }
  }

  /** A walk that ends without an error, without Truncated and without visit saying stop examined everything. */
  lemma FinishedWalkIsComplete(tree: Tree, depth: nat, c: Rel)
    requires LevelAt(tree, depth + 1) == []
    ensures c in Order(tree, depth + 1) <==> c != [] && Reachable(tree, c, false)
  {
    hide LevelAt, Order, Reachable;
    OrderHolds(tree, depth + 1, c);
    if |c| > depth + 1 {
      EmptyLevelEndsTheOrder(tree, depth + 1, |c|);
      OrderHolds(tree, |c|, c);
    }
  }

  /** Shallow entries come first. */
  lemma {:induction false} OrderIsByDepth(tree: Tree, k: nat, i: nat, j: nat)
    requires i < j < |Order(tree, k)|
    ensures |Order(tree, k)[i]| <= |Order(tree, k)[j]|
    decreases k
  {
    hide LevelAt, LevelCalls, Reachable;
    var done := Order(tree, k - 1);
    if j < |done| {
      OrderIsByDepth(tree, k - 1, i, j);
    } else {
      var last := Order(tree, k)[j];
      assert last in LevelCalls(tree, LevelAt(tree, k - 1));
      InLevel(tree, LevelAt(tree, k - 1), last);
      LevelHolds(tree, k - 1, ParentOf(last));
      assert Order(tree, k)[i] in Order(tree, k);
      OrderHolds(tree, k, Order(tree, k)[i]);
    }
  }

  // ---------------------------------------------------------- nothing twice

  /** A directory does not list a name twice. */
  ghost predicate Sane(tree: Tree) {
    forall dir :: forall i, j | 0 <= i < j < |EntriesOf(tree, dir)| ::
      EntriesOf(tree, dir)[i].name != EntriesOf(tree, dir)[j].name
  }

  lemma NoDupJoined(a: seq<Rel>, b: seq<Rel>)
    requires NoDup(a) && NoDup(b) && forall x | x in a :: x !in b
    ensures NoDup(a + b)
  {
    forall i, j | 0 <= i < j < |a + b| ensures (a + b)[i] != (a + b)[j] {
      if i < |a| <= j {
        assert a[i] in a && b[j - |a|] in b;
      }
    }
  }

  lemma {:induction false} ChildrenOnce(dir: Rel, es: seq<Entry>)
    requires forall i, j | 0 <= i < j < |es| :: es[i].name != es[j].name
    ensures NoDup(Children(dir, es)) && NoDup(Subdirs(dir, es))
  {
    if es != [] {
      ChildrenOnce(dir, es[1..]);
      var first := dir + [es[0].name];
      InDirectory(dir, es[1..], first);
      assert NameOf(first) == es[0].name;
      if !Hidden(es[0].name) {
        NoDupJoined([first], Children(dir, es[1..]));
        NoDupJoined([first], Subdirs(dir, es[1..]));
      }
    }
  }

  lemma {:induction false} LevelOnce(tree: Tree, level: seq<Rel>)
    requires Sane(tree) && NoDup(level)
    ensures NoDup(LevelCalls(tree, level)) && NoDup(NextLevel(tree, level))
    decreases |level|
  {
    hide Listed, Children, Subdirs, EntriesOf;
    if level != [] {
      var n := |level| - 1;
      var es := EntriesOf(tree, level[n]);
      LevelOnce(tree, level[..n]);
      ChildrenOnce(level[n], es);
      forall c | c in Children(level[n], es) || c in Subdirs(level[n], es)
        ensures c !in LevelCalls(tree, level[..n]) && c !in NextLevel(tree, level[..n])
      {
        InDirectory(level[n], es, c);
        InLevel(tree, level[..n], c);
      }
      NoDupJoined(LevelCalls(tree, level[..n]), Children(level[n], es));
      NoDupJoined(NextLevel(tree, level[..n]), Subdirs(level[n], es));
    }
  }

  lemma {:induction false} DirectoriesOnce(tree: Tree, k: nat)
    requires Sane(tree)
    ensures NoDup(LevelAt(tree, k))
    decreases k
  {
    hide Sane;
    if k > 0 {
      DirectoriesOnce(tree, k - 1);
      LevelOnce(tree, LevelAt(tree, k - 1));
    }
  }

  /** Nothing is examined twice, so no directory is read twice. */
  lemma {:induction false} NothingTwice(tree: Tree, k: nat)
    requires Sane(tree)
    ensures NoDup(Order(tree, k)) && NoDup(LevelAt(tree, k))
    decreases k
  {
    hide Sane, LevelAt, LevelCalls, Reachable;
    DirectoriesOnce(tree, k);
    if k > 0 {
      NothingTwice(tree, k - 1);
      DirectoriesOnce(tree, k - 1);
      LevelOnce(tree, LevelAt(tree, k - 1));
      var above, here := Order(tree, k - 1), LevelCalls(tree, LevelAt(tree, k - 1));
      forall c | c in above ensures c !in here {
        OrderHolds(tree, k - 1, c);
        InLevel(tree, LevelAt(tree, k - 1), c);
        LevelHolds(tree, k - 1, ParentOf(c));
      }
      NoDupJoined(above, here);
    }
  }
}
