/** A search below a directory: the walk, the matcher and the stream of hits (internal/server/search.go). */
module Search {
  import opened Common
  import Fuzzy
  import opened Walk

  type Folder = string -> Fuzzy.Folded

  /** What a search looks for: the query in the name or its lead consonants, in one piece if it is short. */
  ghost predicate Holds(f: Fuzzy.Folded, n: Fuzzy.Needle) {
    if |n.text| < Fuzzy.SHORT_QUERY then Fuzzy.InOnePiece(f, n)
    else Fuzzy.IsSubsequence(f.fold, n.text) || (n.tryLead && Fuzzy.IsSubsequence(f.lead, n.text))
  }

  /** The matcher answers exactly for the names that hold the query. */
  lemma ScoredIffHolds(f: Fuzzy.Folded, n: Fuzzy.Needle, r: Option<Fuzzy.Match>)
    requires n.text != [] && Fuzzy.IsScore(f, n, r) && |n.text| >= Fuzzy.SHORT_QUERY
    ensures r.Some? <==> Holds(f, n)
  {
    hide Fuzzy.IsAnswer, Fuzzy.IsSubsequence;
    var m, byLead :| Fuzzy.IsScoreBy(f, n, m, byLead, r);
    Fuzzy.MatchesIffSubsequence(f.fold, n.text, m);
    if n.tryLead && f.lead != f.fold {
      Fuzzy.MatchesIffSubsequence(f.lead, n.text, byLead);
    }
  }

  /** Entries below the starting directory. */
  predicate Below(calls: seq<Rel>) { forall i | 0 <= i < |calls| :: calls[i] != [] }

  /** Which of the entries are hits. */
  function HitsOf(calls: seq<Rel>, hit: string -> bool): (r: seq<Rel>)
    requires Below(calls)
    ensures forall c :: c in r <==> c in calls && hit(NameOf(c))
  {
    if calls == [] then []
    else HitsOf(calls[..|calls| - 1], hit) + (if hit(NameOf(calls[|calls| - 1])) then [calls[|calls| - 1]] else [])
  }

  lemma HitsNext(calls: seq<Rel>, hit: string -> bool, i: nat)
    requires i < |calls| && Below(calls)
    ensures HitsOf(calls[..i + 1], hit) == HitsOf(calls[..i], hit) + (if hit(NameOf(calls[i])) then [calls[i]] else [])
  {
    assert calls[..i + 1][..i] == calls[..i];
  }

  lemma {:induction false} HitsOnce(calls: seq<Rel>, hit: string -> bool)
    requires NoDup(calls) && Below(calls)
    ensures NoDup(HitsOf(calls, hit))
  {
    if calls != [] {
      var front, last := calls[..|calls| - 1], calls[|calls| - 1];
      HitsOnce(front, hit);
      assert forall i | 0 <= i < |front| :: calls[i] == front[i];
      assert last !in front;
    }
  }

  /** What visit answers for the i-th entry: stop when the client has hung up or has enough. */
  predicate Wants(order: seq<Rel>, hit: string -> bool, writable: nat -> bool, cap: nat, i: nat)
    requires Below(order)
  {
    i < |order| && hit(NameOf(order[i])) ==>
      var sent := |HitsOf(order[..i], hit)|;
      writable(sent) && sent + 1 < cap
  }

  /** How a search ends: with its last line, after an error, or because nobody reads it any more. */
  datatype Finish = Finished(truncated: bool) | FailedSearch | HungUp

  lemma OrderIsBelow(tree: Tree, k: nat)
    ensures Below(Order(tree, k))
  {
    forall i | 0 <= i < |Order(tree, k)| ensures Order(tree, k)[i] != [] {
      OrderHolds(tree, k, Order(tree, k)[i]);
    }
  }

  /** A walk that visit stopped had a hit at its last entry: the client hung up, or that hit was the last one wanted. */
  lemma StoppedAtAHit(order: seq<Rel>, calls: seq<Rel>, hit: string -> bool, writable: nat -> bool, cap: nat)
    requires calls <= order && calls != [] && Below(order)
    requires !Wants(order, hit, writable, cap, |calls| - 1)
    ensures var before := HitsOf(calls[..|calls| - 1], hit);
            HitsOf(calls, hit) == before + [calls[|calls| - 1]] && (!writable(|before|) || |before| + 1 >= cap)
  {
    assert order[..|calls| - 1] == calls[..|calls| - 1];
  }

  /** What visit does with each entry: asks the matcher and sends the hits. */
  method Matching(calls: seq<Rel>, fold: Folder, n: Fuzzy.Needle, hit: string -> bool) returns (sent: seq<Rel>)
    requires n.text != [] && Below(calls)
    requires forall name :: fold(name).lead == Fuzzy.Lead(fold(name).fold)
    requires forall name :: hit(name) <==> Holds(fold(name), n)
    ensures sent == HitsOf(calls, hit) && forall c :: c in sent <==> c in calls && hit(NameOf(c))
  {
    hide Fuzzy.IsScore, Fuzzy.InOnePiece, Fuzzy.IsSubsequence;
    sent := [];
    for i := 0 to |calls|
      invariant sent == HitsOf(calls[..i], hit)
    {
      var f := fold(NameOf(calls[i]));
      var r := Fuzzy.Hit(f, n);
      if |n.text| >= Fuzzy.SHORT_QUERY {
        ScoredIffHolds(f, n, r);
      }
      HitsNext(calls, hit, i);
      if r.Some? {
        sent := sent + [calls[i]];
      }
    }
    assert calls[..|calls|] == calls;
  }

  /** What a walk has visited is reachable, and nothing is visited twice. */
  lemma HitsAreSound(tree: Tree, depth: nat, calls: seq<Rel>, hit: string -> bool)
    requires calls <= Order(tree, depth + 1) && Below(calls)
    ensures forall c | c in calls :: c != [] && Reachable(tree, c, false)
    ensures Sane(tree) ==> NoDup(calls) && NoDup(HitsOf(calls, hit))
  {
    hide Sane, Order, Reachable;
    forall c | c in calls ensures c != [] && Reachable(tree, c, false) {
      assert c in Order(tree, depth + 1);
      OrderHolds(tree, depth + 1, c);
    }
    if Sane(tree) {
      NothingTwice(tree, depth + 1);
      assert forall i | 0 <= i < |calls| :: calls[i] == Order(tree, depth + 1)[i];
      HitsOnce(calls, hit);
    }
  }

  /** As long as visit has answered yes there are fewer hits than the limit, and all of them were written. */
  lemma {:induction false} HitsAreWritten(order: seq<Rel>, calls: seq<Rel>, hit: string -> bool, writable: nat -> bool, cap: nat, n: nat)
    requires calls <= order && Below(order) && Below(calls) && n <= |calls| && cap > 0
    requires forall m: nat | m < n :: Wants(order, hit, writable, cap, m)
    ensures |HitsOf(calls[..n], hit)| < cap && forall k: nat | k < |HitsOf(calls[..n], hit)| :: writable(k)
  {
    hide HitsOf;
    if n == 0 {
      NoHits(hit);
    } else {
      HitsAreWritten(order, calls, hit, writable, cap, n - 1);
      HitsNext(calls, hit, n - 1);
      assert order[..n - 1] == calls[..n - 1] && order[n - 1] == calls[n - 1];
      assert Wants(order, hit, writable, cap, n - 1);
    }
  }

  lemma NoHits(hit: string -> bool)
    ensures HitsOf([], hit) == []
  {
  }

  lemma LastCall(calls: seq<Rel>, hit: string -> bool)
    requires Below(calls)
    ensures calls[..|calls|] == calls
    ensures calls != [] ==> |HitsOf(calls, hit)| <= |HitsOf(calls[..|calls| - 1], hit)| + 1
  {
    assert calls[..|calls|] == calls;
  }

  lemma BrokenDirectory(tree: Tree, alive: nat -> bool, wants: nat -> bool, calls: seq<Rel>, limits: Limits)
    requires Justified(Failed, tree, alive, wants, calls, limits.visit, limits.depth + 1)
    ensures exists dir :: dir in Dirs(tree, limits.depth + 1) && tree(dir).Broken?
  {
    hide Dirs, LevelCalls;
    var n: nat :| AtDirectory(tree, limits.depth + 1, n, calls) && tree(Dirs(tree, limits.depth + 1)[n]).Broken?;
    assert Dirs(tree, limits.depth + 1)[n] in Dirs(tree, limits.depth + 1);
  }

  /**
   The visits of one search.  `hit` is what visit decides for a name, as the matcher does.  A search that ends without
   an error, without having been hung up on and without saying "truncated" has sent exactly the reachable entries
   whose names hold the query, each once; and no search sends anything else.
   */
  method Search(tree: Tree, fold: Folder, n: Fuzzy.Needle, hit: string -> bool, alive: nat -> bool, writable: nat -> bool,
                limits: Limits, cap: nat)
    returns (sent: seq<Rel>, end: Finish)
    requires n.text != [] && cap > 0
    requires forall name :: fold(name).lead == Fuzzy.Lead(fold(name).fold)
    requires forall name :: hit(name) <==> Holds(fold(name), n)
    ensures forall c | c in sent :: c != [] && Reachable(tree, c, false) && Holds(fold(NameOf(c)), n)
    ensures end == Finished(false) ==>
              |sent| < cap && forall c | c != [] && Reachable(tree, c, false) && Holds(fold(NameOf(c)), n) :: c in sent
    ensures Sane(tree) ==> NoDup(sent)
    ensures end.Finished? && |sent| >= cap ==> end.truncated
    ensures end.FailedSearch? ==> exists dir :: dir in Dirs(tree, limits.depth + 1) && tree(dir).Broken?
    // At most cap hits, each of them written; and a reason for saying that something may be missing.
    ensures |sent| <= cap && forall k: nat | k < |sent| :: writable(k)
    ensures end.HungUp? ==> !writable(|sent|)
    ensures end == Finished(true) ==>
              || |sent| >= cap || LevelAt(tree, limits.depth + 1) != []
              || |Order(tree, limits.depth + 1)| > limits.visit || exists n: nat :: !alive(n)
  {
    hide Order, LevelAt, Reachable, Sane, Holds, Wants, HitsOf;
    var order := Order(tree, limits.depth + 1);
    OrderIsBelow(tree, limits.depth + 1);
    var wants := (i: nat) => Wants(order, hit, writable, cap, i);
    var res, how, calls := Walk.Walk(tree, alive, wants, limits);
    assert forall i | 0 <= i < |calls| :: calls[i] == order[i];
    sent := Matching(calls, fold, n, hit);
    var answered := |calls| - if how.StoppedByVisit? then 1 else 0;
    forall m: nat | m < answered ensures Wants(order, hit, writable, cap, m) {
      assert wants(m);
    }
    HitsAreWritten(order, calls, hit, writable, cap, answered);
    LastCall(calls, hit);
    HitsAreSound(tree, limits.depth, calls, hit);
    if how.StoppedByVisit? {
      StoppedAtAHit(order, calls, hit, writable, cap);
      if !writable(|sent| - 1) {
        sent := sent[..|sent| - 1];
        return sent, HungUp;
      }
    }
    if how.Failed? {
      BrokenDirectory(tree, alive, wants, calls, limits);
      return sent, FailedSearch;
    }
    end := Finished(res.truncated || |sent| >= cap);
    if end == Finished(false) {
      assert how.Done?;
      forall c | c != [] && Reachable(tree, c, false) && Holds(fold(NameOf(c)), n) ensures c in sent {
        FinishedWalkIsComplete(tree, limits.depth, c);
      }
    }
  }
}
