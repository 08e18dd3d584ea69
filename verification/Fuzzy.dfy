/**
 The filename matcher (internal/fuzzy/fuzzy.go) and its TypeScript twin (web/src/lib/fuzzy.ts).

 Names and queries are already folded, as UTF-16 code units.  Scores are kept in tenths, so
 the length penalty of a tenth a unit stays an integer.
 */
module Fuzzy {
  import opened Common

  type Unit = x: int | 0 <= x < 65536
  type Text = seq<Unit>

  datatype Match = Match(score: int, positions: seq<int>)

  const SEPARATORS: set<int> := {32, 45, 95, 46, 47, 40, 41, 91, 93, 44, 39}

  predicate AtBoundary(hay: Text, i: int)
    requires i <= |hay|
  {
    i <= 0 || hay[i - 1] in SEPARATORS
  }

  // ------------------------------------------------------------ what is an answer

  /** An embedding: where each unit of the needle sits, in order. */
  ghost predicate Embeds(hay: Text, needle: Text, p: seq<int>) {
    |p| == |needle|
    && (forall i | 0 <= i < |p| :: 0 <= p[i] < |hay| && hay[p[i]] == needle[i])
    && (forall i, j | 0 <= i < j < |p| :: p[i] < p[j])
  }

  ghost predicate OccursAt(hay: Text, needle: Text, at: int) {
    0 <= at <= |hay| - |needle| && hay[at..at + |needle|] == needle
  }

  ghost predicate Occurs(hay: Text, needle: Text) { exists at :: OccursAt(hay, needle, at) }

  ghost predicate IsSubsequence(hay: Text, needle: Text) { exists p :: Embeds(hay, needle, p) }

  /** Ends as early as any embedding can, and sits as late as any embedding with that end. */
  ghost predicate Tightest(hay: Text, needle: Text, p: seq<int>)
    requires needle != []
  {
    Embeds(hay, needle, p)
    && forall q | Embeds(hay, needle, q) ::
      p[|p| - 1] <= q[|q| - 1] && (q[|q| - 1] == p[|p| - 1] ==> forall i | 0 <= i < |p| :: q[i] <= p[i])
  }

  function Term(hay: Text, prev: int, at: int): int
    requires at <= |hay|
  {
    var gap := if prev < 0 then at else at - prev - 1;
    10 + (if at == prev + 1 then 30 else 0) + (if AtBoundary(hay, at) then 25 else 0) - (if gap < 20 then gap else 20)
  }

  predicate Within(hay: Text, p: seq<int>) { forall i | 0 <= i < |p| :: 0 <= p[i] < |hay| }

  /** The points of the positions, each next to the one before it. */
  function Points(hay: Text, p: seq<int>, prev: int): int
    requires Within(hay, p)
  {
    if p == [] then 0 else Term(hay, prev, p[0]) + Points(hay, p[1..], p[0])
  }

  function ScoreScattered(hay: Text, p: seq<int>): int
    requires Within(hay, p)
  {
    10 * Points(hay, p, -2) - |hay|
  }

  function ScoreContiguous(hay: Text, at: int): int
    requires 0 <= at <= |hay|
  {
    10 * (1000 - 2 * (if at < 100 then at else 100) + (if AtBoundary(hay, at) then 200 else 0)) - |hay|
  }

  function Run(at: int, n: nat): (p: seq<int>)
    ensures |p| == n && forall i | 0 <= i < n :: p[i] == at + i
  {
    seq(n, i requires 0 <= i < n => at + i)
  }

  ghost predicate FirstOccurrence(hay: Text, needle: Text, at: int) {
    OccursAt(hay, needle, at) && forall j | OccursAt(hay, needle, j) :: at <= j
  }

  /** What matching promises, without saying how the match is found. */
  ghost predicate IsAnswer(hay: Text, needle: Text, r: Option<Match>) {
    if needle == [] then r == Some(Match(0, []))
    else if Occurs(hay, needle) then
      r.Some? && |r.value.positions| > 0 && var at := r.value.positions[0];
      FirstOccurrence(hay, needle, at) && r.value == Match(ScoreContiguous(hay, at), Run(at, |needle|))
    else if IsSubsequence(hay, needle) then
      r.Some? && Tightest(hay, needle, r.value.positions) && r.value.score == ScoreScattered(hay, r.value.positions)
    else r == None
  }

  // --------------------------------------------------------------------- in Go

  method Index(hay: Text, needle: Text) returns (at: int)
    ensures at == -1 || (0 <= at && FirstOccurrence(hay, needle, at))
    ensures at == -1 <==> !Occurs(hay, needle)
  {
    if |needle| == 0 {
      assert OccursAt(hay, needle, 0);
      return 0;
    }
    if |needle| > |hay| { return -1; }
    var i := 0;
    while i <= |hay| - |needle|
      invariant 0 <= i
      invariant forall j | 0 <= j < i :: !OccursAt(hay, needle, j)
    {
      var j := 0;
      while j < |needle| && hay[i + j] == needle[j]
        invariant 0 <= j <= |needle|
        invariant hay[i..i + j] == needle[..j]
      {
        j := j + 1;
      }
      if j == |needle| {
        assert OccursAt(hay, needle, i);
        return i;
      }
      assert hay[i..i + |needle|][j] != needle[j];
      i := i + 1;
    }
    return -1;
  }

  method ScoreOf(hay: Text, positions: seq<int>) returns (score: int)
    requires Within(hay, positions)
    ensures score == ScoreScattered(hay, positions)
  {
    var total, prev := 0, -2;
    for k := 0 to |positions|
      invariant prev == if k == 0 then -2 else positions[k - 1]
      invariant total + Points(hay, positions[k..], prev) == Points(hay, positions, -2)
    {
      var at := positions[k];
      assert positions[k..][1..] == positions[k + 1..];
      var s := 10;
      if at == prev + 1 { s := s + 30; }
      if AtBoundary(hay, at) { s := s + 25; }
      var gap := at;
      if prev >= 0 { gap := at - prev - 1; }
      if gap > 20 { gap := 20; }
      s := s - gap;
      total := total + s;
      prev := at;
    }
    score := 10 * total - |hay|;
  }

  /** The least places each unit can take: no embedding puts unit j before f[j]. */
  ghost predicate Least(hay: Text, needle: Text, f: seq<int>) {
    forall q, j | Embeds(hay, needle, q) && 0 <= j < |f| && j < |q| :: f[j] <= q[j]
  }

  /** The embedding of the part of the needle done so far. */
  ghost predicate Partial(hay: Text, needle: Text, f: seq<int>) {
    |f| <= |needle| && Embeds(hay, needle[..|f|], f) && Least(hay, needle, f)
  }

  ghost predicate NextPlace(hay: Text, needle: Text, f: seq<int>, h: int)
    requires |f| < |needle|
  {
    var from := if f == [] then 0 else f[|f| - 1] + 1;
    0 <= from <= h <= |hay| && (h < |hay| ==> hay[h] == needle[|f|])
    && forall j | from <= j < h :: hay[j] != needle[|f|]
  }

  lemma NoEarlierPlace(hay: Text, needle: Text, f: seq<int>, h: int, q: seq<int>)
    requires Partial(hay, needle, f) && |f| < |needle| && NextPlace(hay, needle, f, h) && Embeds(hay, needle, q)
    ensures h <= q[|f|]
  {
    if f != [] {
      assert f[|f| - 1] <= q[|f| - 1] < q[|f|];
    }
  }

  lemma PartialGrows(hay: Text, needle: Text, f: seq<int>, h: int)
    requires Partial(hay, needle, f) && |f| < |needle| && NextPlace(hay, needle, f, h)
    ensures h < |hay| ==> Partial(hay, needle, f + [h])
    ensures h == |hay| ==> !IsSubsequence(hay, needle)
  {
    forall q | Embeds(hay, needle, q) ensures h <= q[|f|] {
      NoEarlierPlace(hay, needle, f, h, q);
    }
    if h < |hay| {
      assert needle[..|f| + 1] == needle[..|f|] + [needle[|f|]];
      forall i | 0 <= i < |f| ensures f[i] < h {
        if i < |f| - 1 {
          assert f[i] < f[|f| - 1];
        }
      }
    }
  }

  /** The left-to-right pass: the earliest place for each unit, or proof that there is none. */
  method Forward(hay: Text, needle: Text) returns (f: seq<int>, ok: bool)
    ensures ok <==> IsSubsequence(hay, needle)
    ensures ok ==> Embeds(hay, needle, f) && Least(hay, needle, f)
  {
    f := [];
    var h := 0;
    for i := 0 to |needle|
      invariant |f| == i && Partial(hay, needle, f)
      invariant 0 <= h <= |hay| && h == if i == 0 then 0 else f[i - 1] + 1
    {
      ghost var from := h;
      while h < |hay| && hay[h] != needle[i]
        invariant from <= h <= |hay|
        invariant forall j | from <= j < h :: hay[j] != needle[i]
      {
        h := h + 1;
      }
      PartialGrows(hay, needle, f, h);
      if h >= |hay| { return f, false; }
      f := f + [h];
      h := h + 1;
    }
    assert needle[..|f|] == needle;
    return f, true;
  }

  /** Units i.. of the needle have their places. */
  ghost predicate Placed(hay: Text, needle: Text, end: int, p: seq<int>, i: int) {
    |p| == |needle| && 0 <= i <= |p|
    && (forall k | i <= k < |p| :: 0 <= p[k] <= end && p[k] < |hay| && hay[p[k]] == needle[k])
    && (forall k, m | i <= k < m < |p| :: p[k] < p[m])
  }

  /** No embedding with that end puts one of those units any later. */
  ghost predicate Late(hay: Text, needle: Text, end: int, p: seq<int>, i: int) {
    forall q, k | Embeds(hay, needle, q) && |q| == |p| && |q| > 0 && q[|q| - 1] == end && 0 <= i <= k < |p| :: q[k] <= p[k]
  }

  /** Where the walk back stands before placing unit i - 1. */
  ghost predicate WalkBack(hay: Text, needle: Text, end: int, p: seq<int>, i: int, hi: int) {
    Placed(hay, needle, end, p, i) && Late(hay, needle, end, p, i)
    && hi < |hay| && hi == if i == |p| then end else p[i] - 1
  }

  ghost predicate Stopped(hay: Text, c: Unit, hi: int, at: int) {
    0 <= at <= hi < |hay| && hay[at] == c && forall j | at < j <= hi :: hay[j] != c
  }

  lemma NoLaterPlace(hay: Text, needle: Text, end: int, p: seq<int>, i: int, hi: int, q: seq<int>)
    requires WalkBack(hay, needle, end, p, i, hi) && i > 0
    requires Embeds(hay, needle, q) && q[|q| - 1] == end
    ensures 0 <= q[i - 1] <= hi && hay[q[i - 1]] == needle[i - 1]
  {
    if i < |p| {
      assert q[i - 1] < q[i] <= p[i];
    }
  }

  lemma PlacedGrows(hay: Text, needle: Text, end: int, p: seq<int>, i: int, hi: int, at: int)
    requires WalkBack(hay, needle, end, p, i, hi) && i > 0 && Stopped(hay, needle[i - 1], hi, at)
    ensures Placed(hay, needle, end, p[i - 1 := at], i - 1)
  {
    hide Late;
    if i < |p| {
      assert at < p[i] <= end;
    }
  }

  lemma LateGrows(hay: Text, needle: Text, end: int, p: seq<int>, i: int, hi: int, at: int)
    requires WalkBack(hay, needle, end, p, i, hi) && i > 0 && Stopped(hay, needle[i - 1], hi, at)
    ensures Late(hay, needle, end, p[i - 1 := at], i - 1)
  {
    forall q | Embeds(hay, needle, q) && q[|q| - 1] == end ensures q[i - 1] <= at {
      NoLaterPlace(hay, needle, end, p, i, hi, q);
    }
  }

  lemma LateIsTightest(hay: Text, needle: Text, f: seq<int>, p: seq<int>)
    requires needle != [] && Embeds(hay, needle, f) && Least(hay, needle, f)
    requires Placed(hay, needle, f[|f| - 1], p, 0) && Late(hay, needle, f[|f| - 1], p, 0)
    ensures Tightest(hay, needle, p)
  {
    var n := |needle| - 1;
    assert f[n] <= p[n];
    assert Embeds(hay, needle, p);
  }

  lemma RoomForTheUnit(hay: Text, needle: Text, f: seq<int>, p: seq<int>, i: int, hi: int)
    requires needle != [] && Embeds(hay, needle, f) && WalkBack(hay, needle, f[|f| - 1], p, i, hi) && i > 0
    ensures 0 <= f[i - 1] <= hi < |hay| && hay[f[i - 1]] == needle[i - 1]
  {
    NoLaterPlace(hay, needle, f[|f| - 1], p, i, hi, f);
  }

  /**
   The right-to-left pass from the earliest end.  It always finds a place, so the fallback the
   source keeps for a missing one is never taken.
   */
  method Backward(hay: Text, needle: Text, f: seq<int>) returns (positions: seq<int>)
    requires needle != [] && Embeds(hay, needle, f) && Least(hay, needle, f)
    ensures Tightest(hay, needle, positions)
  {
    hide Least, Late, Tightest, Placed;
    var n := |needle|;
    var end := f[n - 1];
    positions := seq(n, _ => 0);
    var hi := end;
    NothingPlacedYet(hay, needle, f, positions);
    var i := n;
    while i > 0
      invariant 0 <= i <= n && |positions| == n && WalkBack(hay, needle, end, positions, i, hi)
    {
      RoomForTheUnit(hay, needle, f, positions, i, hi);
      ghost var from := hi;
      while hi >= 0 && hay[hi] != needle[i - 1]
        invariant f[i - 1] <= hi <= from
        invariant forall j | hi < j <= from :: hay[j] != needle[i - 1]
      {
        hi := hi - 1;
      }
      if hi < 0 {
        assert false;
      }
      assert Stopped(hay, needle[i - 1], from, hi);
      PlacedGrows(hay, needle, end, positions, i, from, hi);
      LateGrows(hay, needle, end, positions, i, from, hi);
      positions := positions[i - 1 := hi];
      hi := hi - 1;
      i := i - 1;
    }
    LateIsTightest(hay, needle, f, positions);
  }

  lemma NothingPlacedYet(hay: Text, needle: Text, f: seq<int>, p: seq<int>)
    requires needle != [] && Embeds(hay, needle, f) && |p| == |needle|
    ensures WalkBack(hay, needle, f[|f| - 1], p, |p|, f[|f| - 1])
  {
  }

  /** Scores a needle against a name: the first contiguous hit, or else the tightest embedding. */
  method Find(hay: Text, needle: Text) returns (r: Option<Match>)
    ensures IsAnswer(hay, needle, r)
  {
    if |needle| == 0 { return Some(Match(0, [])); }

    var at := Index(hay, needle);
    if at >= 0 {
      var capped := at;
      if capped > 100 { capped := 100; }
      var score := 1000 - capped * 2;
      if AtBoundary(hay, at) { score := score + 200; }
      return Some(Match(10 * score - |hay|, Run(at, |needle|)));
    }

    var f, ok := Forward(hay, needle);
    if !ok { return None; }
    var positions := Backward(hay, needle, f);
    var score := ScoreOf(hay, positions);
    return Some(Match(score, positions));
  }

  // ---------------------------------------------------------- one answer only

  lemma TightestIsUnique(hay: Text, needle: Text, p: seq<int>, q: seq<int>)
    requires needle != [] && Tightest(hay, needle, p) && Tightest(hay, needle, q)
    ensures p == q
  {
    var n := |needle| - 1;
    assert p[n] <= q[n] && q[n] <= p[n];
    forall i | 0 <= i < |p| ensures p[i] == q[i] {
      assert p[i] <= q[i] && q[i] <= p[i];
    }
  }

  /** The promise leaves no freedom: two matchers that keep it give the same positions and score. */
  lemma AnswersAgree(hay: Text, needle: Text, r: Option<Match>, s: Option<Match>)
    requires IsAnswer(hay, needle, r) && IsAnswer(hay, needle, s)
    ensures r == s
  {
    if needle != [] && !Occurs(hay, needle) && IsSubsequence(hay, needle) {
      TightestIsUnique(hay, needle, r.value.positions, s.value.positions);
    }
  }

  lemma RunEmbeds(hay: Text, needle: Text, at: int)
    requires OccursAt(hay, needle, at)
    ensures Embeds(hay, needle, Run(at, |needle|))
  {
    forall i | 0 <= i < |needle| ensures hay[at + i] == needle[i] {
      assert hay[at..at + |needle|][i] == needle[i];
    }
  }

  /** A name matches exactly when the needle is a subsequence of it. */
  lemma MatchesIffSubsequence(hay: Text, needle: Text, r: Option<Match>)
    requires IsAnswer(hay, needle, r)
    ensures r.Some? <==> IsSubsequence(hay, needle)
    ensures r.Some? ==> Embeds(hay, needle, r.value.positions)
  {
    if needle == [] {
      assert Embeds(hay, needle, []);
    } else if Occurs(hay, needle) {
      RunEmbeds(hay, needle, r.value.positions[0]);
    }
  }

  // --------------------------------------------------- contiguous and scattered

  predicate Adjacent(p: seq<int>) { forall i | 0 < i < |p| :: p[i] == p[i - 1] + 1 }

  lemma {:induction false} AdjacentIsRun(p: seq<int>, i: nat)
    requires Adjacent(p) && i < |p|
    ensures p[i] == p[0] + i
  {
    if i > 0 {
      AdjacentIsRun(p, i - 1);
    }
  }

  /** The positions found are adjacent exactly when the needle occurs in one piece. */
  lemma AdjacentIffOccurs(hay: Text, needle: Text, r: Option<Match>)
    requires IsAnswer(hay, needle, r) && r.Some? && needle != []
    ensures Adjacent(r.value.positions) <==> Occurs(hay, needle)
  {
    var p := r.value.positions;
    if !Occurs(hay, needle) && Adjacent(p) {
      forall i | 0 <= i < |p| ensures p[i] == p[0] + i {
        AdjacentIsRun(p, i);
      }
      assert p[|p| - 1] < |hay|;
      assert hay[p[0]..p[0] + |needle|] == needle;
      assert OccursAt(hay, needle, p[0]);
    }
  }

  ghost predicate Increasing(p: seq<int>, prev: int) {
    forall i | 0 <= i < |p| :: prev < p[i] && forall j | i < j < |p| :: p[i] < p[j]
  }

  /** Every position follows the one before it, the first following `prev`. */
  predicate Chain(prev: int, p: seq<int>)
    decreases p
  {
    p == [] || (p[0] == prev + 1 && Chain(p[0], p[1..]))
  }

  lemma {:induction false} ChainIsAdjacent(prev: int, p: seq<int>, i: nat)
    requires Chain(prev, p) && i < |p|
    ensures p[i] == prev + 1 + i
    decreases i
  {
    if i > 0 {
      ChainIsAdjacent(p[0], p[1..], i - 1);
    }
  }

  /** After the first unit each one is worth at most 65, and one that is not adjacent at most 34. */
  lemma {:induction false} PointsAreBounded(hay: Text, p: seq<int>, prev: int)
    requires Within(hay, p) && 0 <= prev && Increasing(p, prev)
    ensures Points(hay, p, prev) <= 65 * |p| - (if Chain(prev, p) then 0 else 31)
  {
    if p != [] {
      PointsAreBounded(hay, p[1..], p[0]);
    }
  }

  lemma ScatteredIsBounded(hay: Text, needle: Text, p: seq<int>)
    requires needle != [] && Embeds(hay, needle, p) && !Adjacent(p)
    ensures ScoreScattered(hay, p) <= 10 * (65 * |needle| - 61) - |hay|
  {
    var tail := p[1..];
    PointsAreBounded(hay, tail, p[0]);
    if Chain(p[0], tail) {
      forall i | 0 < i < |p| ensures p[i] == p[0] + i {
        ChainIsAdjacent(p[0], tail, i - 1);
      }
      assert false;
    }
    assert Term(hay, -2, p[0]) <= 35;
  }

  /**
   What a contiguous hit is worth next to another: two hundred points more at the start of a word, two points less for every
   unit further in up to the hundredth, and a tenth less for every unit of the name.
   */
  lemma ContiguousHitsCompare(a: Text, i: int, b: Text, j: int)
    requires 0 <= i <= |a| && 0 <= j <= |b|
    ensures i == j && |a| == |b| && AtBoundary(a, i) && !AtBoundary(b, j) ==> ScoreContiguous(a, i) == ScoreContiguous(b, j) + 2000
    ensures AtBoundary(a, i) == AtBoundary(b, j) && |a| == |b| && i < j ==>
              if j <= 100 then ScoreContiguous(a, i) == ScoreContiguous(b, j) + 20 * (j - i)
              else if i >= 100 then ScoreContiguous(a, i) == ScoreContiguous(b, j)
              else ScoreContiguous(a, i) == ScoreContiguous(b, j) + 20 * (100 - i)
    ensures AtBoundary(a, i) == AtBoundary(b, j) && i == j ==> ScoreContiguous(a, i) - ScoreContiguous(b, j) == |b| - |a|
    ensures AtBoundary(a, 0) && AtBoundary(b, 0) && ScoreContiguous(a, 0) == 12000 - |a|
  {
  }

  /**
   What one more unit is worth: ten points, thirty more right after the one before, twenty-five more at the start of a word,
   and one less for every unit skipped, up to twenty.
   */
  lemma UnitsCompare(hay: Text, prev: int, at: int)
    requires prev < at && 0 <= at <= |hay| && (prev >= 0 || prev == -2)
    ensures var skipped := if prev < 0 then at else at - prev - 1;
            var lost := if skipped < 20 then skipped else 20;
            var word := if at == 0 || hay[at - 1] in SEPARATORS then 25 else 0;
            Term(hay, prev, at) == 10 + word - lost + (if prev >= 0 && skipped == 0 then 30 else 0)
  {
  }

  /** How much longer the name with the contiguous hit has to be, at least, to be outranked. */
  function Allowance(n: nat): int { 8610 - 650 * n }

  /** A contiguous hit outranks every scattered one in a name that is not too much shorter. */
  lemma ContiguousOutranksScattered(a: Text, b: Text, needle: Text, r: Option<Match>, s: Option<Match>)
    requires needle != [] && |a| - |b| < Allowance(|needle|)
    requires IsAnswer(a, needle, r) && Occurs(a, needle)
    requires IsAnswer(b, needle, s) && !Occurs(b, needle) && s.Some?
    ensures r.Some? && r.value.score > s.value.score
  {
    AdjacentIffOccurs(b, needle, s);
    ScatteredIsBounded(b, needle, s.value.positions);
  }

  const DASH: Unit := 45
  const UNDERSCORE: Unit := 95
  const X: Unit := 120

  function Fill(c: Unit, n: nat): (t: Text)
    ensures |t| == n && forall i | 0 <= i < n :: t[i] == c
  {
    seq(n, _ => c)
  }

  /** "-_" and n - 1 dashes, padded: n dashes that never stand together. */
  function Broken(n: nat, pad: nat): (t: Text)
    requires n > 1
    ensures |t| == n + 1 + pad
    ensures forall i | 0 <= i < |t| :: t[i] == if i == 0 || 2 <= i <= n then DASH else if i == 1 then UNDERSCORE else X
  {
    [DASH, UNDERSCORE] + Fill(DASH, n - 1) + Fill(X, pad)
  }

  function BrokenAt(n: nat): (p: seq<int>)
    requires n > 1
    ensures |p| == n && forall i | 0 <= i < n :: p[i] == if i == 0 then 0 else i + 1
  {
    [0] + Run(2, n - 1)
  }

  lemma {:induction false} BrokenPlaceAtLeast(n: nat, pad: nat, q: seq<int>, i: nat)
    requires n > 1 && Embeds(Broken(n, pad), Fill(DASH, n), q) && i < n
    ensures q[i] >= BrokenAt(n)[i]
  {
    if i > 0 {
      BrokenPlaceAtLeast(n, pad, q, i - 1);
      assert q[i - 1] < q[i] && Broken(n, pad)[q[i]] == DASH;
    }
  }

  lemma {:induction false} BrokenPlaceAtMost(n: nat, pad: nat, q: seq<int>, i: nat)
    requires n > 1 && Embeds(Broken(n, pad), Fill(DASH, n), q) && i < n
    ensures q[i] <= i + 1
    decreases n - i
  {
    assert Broken(n, pad)[q[i]] == DASH;
    if i + 1 < n {
      BrokenPlaceAtMost(n, pad, q, i + 1);
      assert q[i] < q[i + 1];
    }
  }

  lemma {:induction false} BrokenPoints(n: nat, pad: nat, k: nat)
    requires n > 1 && 2 <= k <= n
    ensures Within(Broken(n, pad), BrokenAt(n)) && Points(Broken(n, pad), BrokenAt(n)[k..], k) == 65 * (n - k)
    decreases n - k
  {
    if k < n {
      BrokenPoints(n, pad, k + 1);
      assert BrokenAt(n)[k..][1..] == BrokenAt(n)[k + 1..];
      assert AtBoundary(Broken(n, pad), k + 1);
    }
  }

  /** The bound on scattered hits is attained. */
  lemma BrokenScore(n: nat, pad: nat)
    requires n > 1
    ensures Within(Broken(n, pad), BrokenAt(n))
    ensures ScoreScattered(Broken(n, pad), BrokenAt(n)) == 10 * (65 * n - 61) - |Broken(n, pad)|
  {
    var p := BrokenAt(n);
    BrokenPoints(n, pad, 2);
    assert p[1..][1..] == p[2..];
    assert AtBoundary(Broken(n, pad), 2);
    assert Points(Broken(n, pad), p[1..], 0) == Term(Broken(n, pad), 0, 2) + Points(Broken(n, pad), p[2..], 2);
  }

  lemma OnlyBrokenEmbeds(n: nat, pad: nat, q: seq<int>)
    requires n > 1 && Embeds(Broken(n, pad), Fill(DASH, n), q)
    ensures q == BrokenAt(n)
  {
    forall i | 0 <= i < n ensures q[i] == BrokenAt(n)[i] {
      BrokenPlaceAtLeast(n, pad, q, i);
      BrokenPlaceAtMost(n, pad, q, i);
      assert Broken(n, pad)[q[i]] == DASH;
    }
  }

  lemma BrokenIsNotARun(n: nat, at: int)
    requires n > 1
    ensures Run(at, n) != BrokenAt(n)
  {
    assert Run(at, n)[1] - Run(at, n)[0] == 1 && BrokenAt(n)[1] - BrokenAt(n)[0] == 2;
  }

  lemma BrokenIsScattered(n: nat, pad: nat)
    requires n > 1
    ensures !Occurs(Broken(n, pad), Fill(DASH, n)) && Tightest(Broken(n, pad), Fill(DASH, n), BrokenAt(n))
    ensures Embeds(Broken(n, pad), Fill(DASH, n), BrokenAt(n))
  {
    var hay, needle, p := Broken(n, pad), Fill(DASH, n), BrokenAt(n);
    forall q | Embeds(hay, needle, q) ensures q == p {
      OnlyBrokenEmbeds(n, pad, q);
    }
    if Occurs(hay, needle) {
      var at :| OccursAt(hay, needle, at);
      RunEmbeds(hay, needle, at);
      BrokenIsNotARun(n, at);
      assert false;
    }
  }

  lemma DashesAfterX(n: nat, far: nat)
    requires n > 0 && far >= 100
    ensures FirstOccurrence(Fill(X, far) + Fill(DASH, n), Fill(DASH, n), far)
    ensures ScoreContiguous(Fill(X, far) + Fill(DASH, n), far) == 8000 - (far + n)
  {
    var hay, needle := Fill(X, far) + Fill(DASH, n), Fill(DASH, n);
    assert hay[far..far + n] == needle;
    forall j | OccursAt(hay, needle, j) ensures far <= j {
      assert hay[j..j + n][0] == needle[0];
    }
    assert hay[far - 1] == X;
  }

  /** Whatever the length of the needle, some contiguous hit is outranked or equalled once its name is that much longer. */
  lemma ContiguousCanBeOutranked(n: nat, d: int) returns (a: Text, b: Text, needle: Text, r: Option<Match>, s: Option<Match>)
    requires n > 1 && d >= Allowance(n)
    ensures |a| == |b| + d && |needle| == n
    ensures IsAnswer(a, needle, r) && Occurs(a, needle) && r.Some?
    ensures IsAnswer(b, needle, s) && !Occurs(b, needle) && s.Some?
    ensures r.value.score <= s.value.score
  {
    hide Embeds, Tightest, Points, BrokenAt;
    var far := if d < 99 then 100 else d + 1;
    var pad := far - 1 - d;
    a, b, needle := Fill(X, far) + Fill(DASH, n), Broken(n, pad), Fill(DASH, n);
    DashesAfterX(n, far);
    BrokenIsScattered(n, pad);
    BrokenScore(n, pad);
    assert IsSubsequence(b, needle);
    r := Some(Match(ScoreContiguous(a, far), Run(far, n)));
    s := Some(Match(ScoreScattered(b, BrokenAt(n)), BrokenAt(n)));
  }

  /** Every contiguous hit of an n-unit needle outranks every scattered one in a name d units shorter. */
  ghost predicate Outranks(n: nat, d: int) {
    forall a, b, needle, r, s | |needle| == n && |a| == |b| + d && IsAnswer(a, needle, r) && Occurs(a, needle)
                                && IsAnswer(b, needle, s) && !Occurs(b, needle) && s.Some? ::
      r.Some? && r.value.score > s.value.score
  }

  /** Exactly when a contiguous hit outranks every scattered one: in terms of the needle's length and the names' difference. */
  lemma OutranksIffWithinAllowance(n: nat, d: int)
    requires n > 1
    ensures Outranks(n, d) <==> d < Allowance(n)
  {
    hide IsAnswer, Occurs;
    if d < Allowance(n) {
      forall a, b, needle, r, s | |needle| == n && |a| == |b| + d && IsAnswer(a, needle, r) && Occurs(a, needle)
                                  && IsAnswer(b, needle, s) && !Occurs(b, needle) && s.Some?
        ensures r.Some? && r.value.score > s.value.score
      {
        ContiguousOutranksScattered(a, b, needle, r, s);
      }
    } else {
      var a, b, needle, r, s := ContiguousCanBeOutranked(n, d);
    }
  }

  const OUTRANKS_UP_TO := 13
  const NAME_MAX := 255

  /** At equal length that is up to 13 units; between any two names a filesystem can hold, up to 12. */
  lemma ThirteenAtEqualLength(n: nat)
    requires n > 1
    ensures Outranks(n, 0) <==> n <= OUTRANKS_UP_TO
    ensures (forall d | d < NAME_MAX :: Outranks(n, d)) <==> n <= OUTRANKS_UP_TO - 1
  {
    hide Outranks;
    OutranksIffWithinAllowance(n, 0);
    OutranksIffWithinAllowance(n, NAME_MAX - 1);
    forall d | d < NAME_MAX ensures Outranks(n, d) <==> d < Allowance(n) {
      OutranksIffWithinAllowance(n, d);
    }
  }

  // ------------------------------------------------------------ lead consonants

  const HANGUL_FIRST := 0xAC00
  const HANGUL_LAST := 0xD7A3

  /** Vowels times finals: how many syllables share a lead consonant (section 3.12 of the Unicode Standard). */
  const PER_LEAD := 588

  const LEADS: Text := [
    0x3131, 0x3132, 0x3134, 0x3137, 0x3138, 0x3139, 0x3141, 0x3142, 0x3143,
    0x3145, 0x3146, 0x3147, 0x3148, 0x3149, 0x314A, 0x314B, 0x314C, 0x314D, 0x314E
  ]

  predicate IsSyllable(c: int) { HANGUL_FIRST <= c <= HANGUL_LAST }

  function LeadOf(c: Unit): Unit {
    if IsSyllable(c) then LEADS[(c - HANGUL_FIRST) / PER_LEAD] else c
  }

  function Lead(s: Text): (t: Text)
    ensures |t| == |s| && forall i | 0 <= i < |s| :: t[i] == LeadOf(s[i])
  {
    seq(|s|, i requires 0 <= i < |s| => LeadOf(s[i]))
  }

  /** The syllable composed of lead l, vowel v and final t shows exactly the consonant l. */
  lemma ComposedSyllableShowsItsLead(l: nat, v: nat, t: nat)
    requires l < 19 && v < 21 && t < 28
    ensures var c := HANGUL_FIRST + (l * 21 + v) * 28 + t;
            IsSyllable(c) && LeadOf(c) == LEADS[l]
  {
    assert (l * 21 + v) * 28 + t == l * PER_LEAD + (v * 28 + t);
  }

  /** No two lead consonants look alike. */
  lemma LeadsAreDistinct()
    ensures forall a, b | 0 <= a < b < |LEADS| :: LEADS[a] < LEADS[b]
  {
  }

  method LeadConsonants(s: Text) returns (r: Text)
    ensures r == Lead(s)
  {
    var out := new Unit[|s|](i requires 0 <= i < |s| => s[i]);
    for i := 0 to |s|
      invariant forall j | 0 <= j < i :: out[j] == LeadOf(s[j])
      invariant forall j | i <= j < |s| :: out[j] == s[j]
    {
      var c := out[i];
      if HANGUL_FIRST <= c <= HANGUL_LAST {
        out[i] := LEADS[(c - HANGUL_FIRST) / PER_LEAD];
      }
    }
    return out[..];
  }

  predicate IsJamo(c: int) { 0x3131 <= c <= 0x3163 }

  predicate HasJamo(s: Text) { exists i | 0 <= i < |s| :: IsJamo(s[i]) }

  // -------------------------------------------------------- the whole decision

  datatype Folded = Folded(fold: Text, lead: Text)

  datatype Needle = Needle(text: Text, tryLead: bool)

  function Better(m: Option<Match>, byLead: Option<Match>): Option<Match> {
    if byLead.Some? && (m.None? || byLead.value.score > m.value.score) then byLead else m
  }

  /** The better of the answers for the folded name and, where it is worth trying, its lead consonants. */
  ghost predicate IsScoreBy(f: Folded, n: Needle, m: Option<Match>, byLead: Option<Match>, r: Option<Match>) {
    if n.text == [] then r == None
    else
      IsAnswer(f.fold, n.text, m)
      && if n.tryLead && f.lead != f.fold then IsAnswer(f.lead, n.text, byLead) && r == Better(m, byLead) else r == m
  }

  ghost predicate IsScore(f: Folded, n: Needle, r: Option<Match>) {
    exists m, byLead :: IsScoreBy(f, n, m, byLead, r)
  }

  lemma ScoresAgree(f: Folded, n: Needle, r: Option<Match>, s: Option<Match>)
    requires IsScore(f, n, r) && IsScore(f, n, s)
    ensures r == s
  {
    hide IsAnswer;
    var m, byLead :| IsScoreBy(f, n, m, byLead, r);
    var m', byLead' :| IsScoreBy(f, n, m', byLead', s);
    if n.text != [] {
      AnswersAgree(f.fold, n.text, m, m');
      if n.tryLead && f.lead != f.fold {
        AnswersAgree(f.lead, n.text, byLead, byLead');
      }
    }
  }

  method Score(f: Folded, n: Needle) returns (r: Option<Match>)
    ensures IsScore(f, n, r)
  {
    hide IsAnswer;
    if |n.text| == 0 {
      assert IsScoreBy(f, n, None, None, None);
      return None;
    }
    r := Find(f.fold, n.text);
    ghost var m, lead := r, None;
    if n.tryLead && f.lead != f.fold {
      var byLead := Find(f.lead, n.text);
      lead := byLead;
      if byLead.Some? && (r.None? || byLead.value.score > r.value.score) {
        r := byLead;
      }
    }
    assert IsScoreBy(f, n, m, lead, r);
  }

  /** A folded query: the lead consonants are worth trying only if it contains one. */
  function NeedleOf(text: Text): Needle { Needle(text, HasJamo(text)) }

  predicate Plain(c: int) { !IsJamo(c) && !IsSyllable(c) }

  /** Replacing syllables by their leads adds and removes no unit that is neither. */
  lemma PlainUnitsStay(c: Unit, n: Unit)
    ensures !IsSyllable(LeadOf(c)) && (Plain(n) ==> (LeadOf(c) == n <==> c == n))
  {
    if IsSyllable(c) {
      assert 0 <= (c - HANGUL_FIRST) / PER_LEAD < |LEADS|;
    }
  }

  ghost predicate AllPlain(s: Text) { forall i | 0 <= i < |s| :: Plain(s[i]) }

  lemma PlainEmbedsAlike(hay: Text, needle: Text)
    requires AllPlain(needle)
    ensures forall p :: Embeds(Lead(hay), needle, p) <==> Embeds(hay, needle, p)
  {
    forall k, i | 0 <= k < |hay| && 0 <= i < |needle| ensures LeadOf(hay[k]) == needle[i] <==> hay[k] == needle[i] {
      PlainUnitsStay(hay[k], needle[i]);
    }
  }

  lemma PlainOccursAlike(hay: Text, needle: Text)
    requires AllPlain(needle)
    ensures forall at :: OccursAt(Lead(hay), needle, at) <==> OccursAt(hay, needle, at)
  {
    forall at ensures OccursAt(Lead(hay), needle, at) <==> OccursAt(hay, needle, at) {
      if 0 <= at <= |hay| - |needle| {
        var a, b := Lead(hay)[at..at + |needle|], hay[at..at + |needle|];
        forall i | 0 <= i < |needle| ensures a[i] == needle[i] <==> b[i] == needle[i] {
          PlainUnitsStay(hay[at + i], needle[i]);
        }
      }
    }
  }

  lemma BoundariesStay(hay: Text, at: int)
    requires at <= |hay|
    ensures AtBoundary(Lead(hay), at) == AtBoundary(hay, at)
  {
    if at > 0 && IsSyllable(hay[at - 1]) {
      assert LeadOf(hay[at - 1]) >= LEADS[0];
    }
  }

  lemma {:induction false} PointsStay(hay: Text, p: seq<int>, prev: int)
    requires Within(hay, p)
    ensures Points(Lead(hay), p, prev) == Points(hay, p, prev)
  {
    if p != [] {
      BoundariesStay(hay, p[0]);
      PointsStay(hay, p[1..], p[0]);
    }
  }

  lemma PlainAnswersAlike(hay: Text, needle: Text, r: Option<Match>)
    requires AllPlain(needle)
    ensures IsAnswer(Lead(hay), needle, r) <==> IsAnswer(hay, needle, r)
  {
    PlainEmbedsAlike(hay, needle);
    PlainOccursAlike(hay, needle);
    if needle != [] && r.Some? {
      var p := r.value.positions;
      if Occurs(hay, needle) {
        if p != [] && OccursAt(hay, needle, p[0]) {
          BoundariesStay(hay, p[0]);
        }
      } else if Embeds(hay, needle, p) {
        PointsStay(hay, p, -2);
      }
    }
  }

  /** Lead consonants hold no syllable to match. */
  lemma SyllablesNeverMatchLeads(hay: Text, needle: Text, i: nat)
    requires i < |needle| && IsSyllable(needle[i])
    ensures IsAnswer(Lead(hay), needle, None)
  {
    forall p ensures !Embeds(Lead(hay), needle, p) {
      if Embeds(Lead(hay), needle, p) {
        PlainUnitsStay(hay[p[i]], needle[i]);
        assert false;
      }
    }
    forall at ensures !OccursAt(Lead(hay), needle, at) {
      if OccursAt(Lead(hay), needle, at) {
        RunEmbeds(Lead(hay), needle, at);
        assert false;
      }
    }
  }

  /** What the second pass gives for a query without a consonant: the same again, or nothing. */
  lemma SecondPassAddsNothing(hay: Text, text: Text, m: Option<Match>) returns (byLead: Option<Match>)
    requires !HasJamo(text) && text != [] && IsAnswer(hay, text, m)
    ensures IsAnswer(Lead(hay), text, byLead) && Better(m, byLead) == m
  {
    if AllPlain(text) {
      PlainAnswersAlike(hay, text, m);
      byLead := m;
    } else {
      var i :| 0 <= i < |text| && !Plain(text[i]);
      SyllablesNeverMatchLeads(hay, text, i);
      byLead := None;
    }
  }

  /** Without a consonant in the query the second pass never changes the result, so skipping it is exact. */
  lemma SecondPassIsForNothing(f: Folded, text: Text, r: Option<Match>)
    requires f.lead == Lead(f.fold) && !HasJamo(text)
    ensures IsScore(f, NeedleOf(text), r) <==> IsScore(f, Needle(text, true), r)
  {
    hide IsAnswer;
    if IsScore(f, Needle(text, true), r) {
      var m, byLead :| IsScoreBy(f, Needle(text, true), m, byLead, r);
      if text != [] && f.lead != f.fold {
        var got := SecondPassAddsNothing(f.fold, text, m);
        AnswersAgree(f.lead, text, got, byLead);
      }
      assert IsScoreBy(f, NeedleOf(text), m, byLead, r);
    }
    if IsScore(f, NeedleOf(text), r) {
      var m, byLead :| IsScoreBy(f, NeedleOf(text), m, byLead, r);
      if text != [] && f.lead != f.fold {
        byLead := SecondPassAddsNothing(f.fold, text, m);
      }
      assert IsScoreBy(f, Needle(text, true), m, byLead, r);
    }
  }

  // ------------------------------------------------- short queries in a search

  const SHORT_QUERY := 3

  method Contiguous(pos: seq<int>) returns (b: bool)
    ensures b == Adjacent(pos)
  {
    var i := 1;
    while i < |pos|
      invariant 1 <= i
      invariant forall j | 0 < j < i && j < |pos| :: pos[j] == pos[j - 1] + 1
    {
      if pos[i] != pos[i - 1] + 1 { return false; }
      i := i + 1;
    }
    return true;
  }

  /** The needle stands in one piece in the name, or, for a consonant query, in its lead consonants. */
  ghost predicate InOnePiece(f: Folded, n: Needle) {
    Occurs(f.fold, n.text) || (n.tryLead && Occurs(f.lead, n.text))
  }

  /** Keeping only adjacent positions is keeping exactly the names that hold the query in one piece. */
  lemma AdjacentIffInOnePiece(f: Folded, n: Needle, r: Option<Match>)
    requires IsScore(f, n, r) && |f.fold| == |f.lead| && 0 < |n.text| <= OUTRANKS_UP_TO
    ensures r.Some? && Adjacent(r.value.positions) <==> InOnePiece(f, n)
  {
    hide IsAnswer, Occurs, Adjacent;
    var m, byLead :| IsScoreBy(f, n, m, byLead, r);
    OneAnswer(f.fold, n.text, m);
    if n.tryLead && f.lead != f.fold {
      OneAnswer(f.lead, n.text, byLead);
      if m.Some? && byLead.Some? {
        if Occurs(f.fold, n.text) && !Occurs(f.lead, n.text) {
          ContiguousOutranksScattered(f.fold, f.lead, n.text, m, byLead);
        } else if Occurs(f.lead, n.text) && !Occurs(f.fold, n.text) {
          ContiguousOutranksScattered(f.lead, f.fold, n.text, byLead, m);
        }
      }
    }
  }

  lemma OneAnswer(hay: Text, needle: Text, r: Option<Match>)
    requires IsAnswer(hay, needle, r) && needle != []
    ensures r.Some? && Adjacent(r.value.positions) <==> Occurs(hay, needle)
  {
    if r.Some? {
      AdjacentIffOccurs(hay, needle, r);
    }
  }

  /**
   The search's decision for one name.  A query of one or two units keeps a name exactly when the
   name holds it in one piece; a longer one keeps whatever scores.
   */
  method Hit(f: Folded, n: Needle) returns (r: Option<Match>)
    requires f.lead == Lead(f.fold) && n.text != []
    ensures |n.text| < SHORT_QUERY ==> (r.Some? <==> InOnePiece(f, n))
    ensures |n.text| >= SHORT_QUERY || r.Some? ==> IsScore(f, n, r)
  {
    hide IsScore, Occurs, OccursAt;
    var exactOnly := |n.text| < SHORT_QUERY;
    r := Score(f, n);
    if exactOnly {
      AdjacentIffInOnePiece(f, n, r);
      if r.Some? {
        var adjacent := Contiguous(r.value.positions);
        if !adjacent { r := None; }
      }
    }
  }
}
