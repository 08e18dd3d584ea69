/** The matcher in the browser (web/src/lib/fuzzy.ts): the same promise, kept by its own code. */
module FuzzyTs {
  import opened Common
  import opened Fuzzy

  method TsScoreOf(hay: Text, positions: seq<int>) returns (score: int)
    requires Within(hay, positions)
    ensures score == ScoreScattered(hay, positions)
  {
    var total, prev := 0, -2;
    var k := 0;
    while k < |positions|
      invariant 0 <= k <= |positions|
      invariant prev == if k == 0 then -2 else positions[k - 1]
      invariant total + Points(hay, positions[k..], prev) == Points(hay, positions, -2)
    {
      var at := positions[k];
      assert positions[k..][1..] == positions[k + 1..];
      var s := 10;
      if at == prev + 1 { s := s + 30; }
      if AtBoundary(hay, at) { s := s + 25; }
      var gap := if prev < 0 then at else at - prev - 1;
      s := s - if gap < 20 then gap else 20;
      total := total + s;
      prev := at;
      k := k + 1;
    }
    score := 10 * total - |hay|;
  }

  /** `codes` is the needle's units; the host's own string search is taken to return a first occurrence. */
  method FuzzyMatch(hay: Text, needle: Text, codes: Text) returns (r: Option<Match>)
    requires codes == needle
    ensures IsAnswer(hay, needle, r)
  {
    if |codes| == 0 { return Some(Match(0, [])); }
    var at := Index(hay, needle);
    if at >= 0 {
      var score := 1000 - (if at < 100 then at else 100) * 2;
      if AtBoundary(hay, at) { score := score + 200; }
      return Some(Match(10 * score - |hay|, Run(at, |needle|)));
    }
    var positions := Embedding(hay, codes);
    if positions.None? { return None; }
    var score := TsScoreOf(hay, positions.value);
    return Some(Match(score, positions.value));
  }

  method Embedding(hay: Text, codes: Text) returns (r: Option<seq<int>>)
    requires codes != []
    ensures r.Some? <==> IsSubsequence(hay, codes)
    ensures r.Some? ==> Tightest(hay, codes, r.value)
  {
    hide Least, Late, Tightest, Placed;
    var len, n := |hay|, |codes|;
    var forward: seq<int> := [];
    var h := 0;
    NothingTaken(hay, codes);
    for i := 0 to n
      invariant |forward| == i && Partial(hay, codes, forward)
      invariant 0 <= h <= len && h == if i == 0 then 0 else forward[i - 1] + 1
    {
      var c := codes[i];
      ghost var from := h;
      while h < len && hay[h] != c
        invariant from <= h <= len
        invariant forall j | from <= j < h :: hay[j] != c
      {
        h := h + 1;
      }
      PartialGrows(hay, codes, forward, h);
      if h >= len { return None; }
      forward := forward + [h];
      h := h + 1;
    }
    assert codes[..n] == codes;

    var end := forward[n - 1];
    var positions := seq(n, _ => 0);
    var hi := end;
    NothingPlacedYet(hay, codes, forward, positions);
    var i := n;
    while i > 0
      invariant 0 <= i <= n && |positions| == n && WalkBack(hay, codes, end, positions, i, hi)
    {
      RoomForTheUnit(hay, codes, forward, positions, i, hi);
      var c := codes[i - 1];
      ghost var from := hi;
      while hi >= 0 && hay[hi] != c
        invariant forward[i - 1] <= hi <= from
        invariant forall j | hi < j <= from :: hay[j] != c
      {
        hi := hi - 1;
      }
      if hi < 0 {
        assert false;
      }
      assert Stopped(hay, codes[i - 1], from, hi);
      PlacedGrows(hay, codes, end, positions, i, from, hi);
      LateGrows(hay, codes, end, positions, i, from, hi);
      positions := positions[i - 1 := hi];
      hi := hi - 1;
      i := i - 1;
    }
    LateIsTightest(hay, codes, forward, positions);
    return Some(positions);
  }

  lemma NothingTaken(hay: Text, needle: Text)
    ensures Partial(hay, needle, [])
  {
  }

  /** One step of the string iterator: a surrogate pair is one character, any other unit is one. */
  function CharLength(s: Text, i: nat): (k: nat)
    requires i < |s|
    ensures 1 <= k <= |s| - i
  {
    if 0xD800 <= s[i] < 0xDC00 && i + 1 < |s| && 0xDC00 <= s[i + 1] < 0xE000 then 2 else 1
  }

  /** Walks the characters, not the units; pairs pass through, so the result is the same as in Go. */
  method TsLeadConsonants(s: Text) returns (out: Text)
    ensures out == Lead(s)
  {
    out := [];
    var i := 0;
    while i < |s|
      invariant 0 <= i <= |s| && out == Lead(s)[..i]
    {
      var k := CharLength(s, i);
      if k == 1 && IsSyllable(s[i]) {
        out := out + [LEADS[(s[i] - HANGUL_FIRST) / PER_LEAD]];
      } else {
        out := out + s[i..i + k];
      }
      assert Lead(s)[..i + k] == Lead(s)[..i] + Lead(s)[i..i + k];
      i := i + k;
    }
  }

  method ScoreFolded(f: Folded, n: Needle, codes: Text) returns (r: Option<Match>)
    requires codes == n.text
    ensures IsScore(f, n, r)
  {
    hide IsAnswer;
    if n.text == [] {
      assert IsScoreBy(f, n, None, None, None);
      return None;
    }
    r := FuzzyMatch(f.fold, n.text, codes);
    ghost var m, lead := r, None;
    if n.tryLead && f.lead != f.fold {
      var byLead := FuzzyMatch(f.lead, n.text, codes);
      lead := byLead;
      if byLead.Some? && (r.None? || byLead.value.score > r.value.score) { r := byLead; }
    }
    assert IsScoreBy(f, n, m, lead, r);
  }

  /** The server and the browser give every name the same score and highlight the same units. */
  method BothScore(f: Folded, n: Needle) returns (go: Option<Match>, ts: Option<Match>)
    ensures go == ts
  {
    hide IsScore;
    go := Score(f, n);
    ts := ScoreFolded(f, n, n.text);
    ScoresAgree(f, n, go, ts);
  }
}
