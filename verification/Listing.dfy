/**
 Paged directory listings: the helper's page (internal/helper/ops.go, readDir) and the
 resume loop that collects the pages (internal/vfs/vfs.go, ReadDir).

 A directory at one moment is its listing in name order, each entry carrying what a stat
 of it would give (nothing when that stat fails).  The directory may be a different one
 at every page.
 */
module Listing {
  import opened Common
  import opened Wire

  type Dir = seq<DirEntry>

  const NAME_MAX := 255
  const HEADROOM := 17
  const BUDGET := MAX_FRAME - HEADROOM

  /** The listing the helper works on: in name order, without repeated or empty names. */
  ghost predicate Sorted(l: seq<DirEntry>) {
    (forall i, j | 0 <= i < j < |l| :: Less(l[i].name, l[j].name)) && (forall i | 0 <= i < |l| :: l[i].name != [])
  }

  ghost predicate ShortNames(l: seq<DirEntry>) {
    forall i | 0 <= i < |l| :: |l[i].name| <= NAME_MAX
  }

  predicate AlreadySent(cursor: Bytes, name: Bytes) { cursor != [] && !Less(cursor, name) }

  function Shown(e: DirEntry, withStat: bool): DirEntry { if withStat then e else e.(stat := None) }

  function ShownAll(l: seq<DirEntry>, withStat: bool): (r: seq<DirEntry>)
    ensures |r| == |l| && forall i | 0 <= i < |l| :: r[i] == Shown(l[i], withStat)
  {
    if l == [] then [] else [Shown(l[0], withStat)] + ShownAll(l[1..], withStat)
  }

  function Cost(name: Bytes, withStat: bool): nat {
    ENTRY_FIXED + |name| + (if withStat then STAT_SIZE else 0)
  }

  // ---------------------------------------------------------------- one page

  function After(l: seq<DirEntry>, cursor: Bytes): seq<DirEntry> {
    if l == [] then []
    else if AlreadySent(cursor, l[0].name) then After(l[1..], cursor)
    else [l[0]] + After(l[1..], cursor)
  }

  /** The entries the budget pays for, and whether it ran out before the end. */
  function Pick(a: seq<DirEntry>, withStat: bool, budget: nat): (seq<DirEntry>, bool) {
    if a == [] then ([], false)
    else if Cost(a[0].name, withStat) > budget then ([], true)
    else
      var (rest, more) := Pick(a[1..], withStat, budget - Cost(a[0].name, withStat));
      ([Shown(a[0], withStat)] + rest, more)
  }

  function Page(l: Dir, id: u64, cursor: Bytes, withStat: bool): Response {
    var (entries, more) := Pick(After(l, cursor), withStat, BUDGET);
    Response(id, if more then HAS_ENTRIES + HAS_MORE else HAS_ENTRIES, 0, None, entries, [])
  }

  lemma AfterStep(l: Dir, i: nat, cursor: Bytes)
    requires i < |l|
    ensures After(l[i..], cursor) ==
            (if AlreadySent(cursor, l[i].name) then [] else [l[i]]) + After(l[i + 1..], cursor)
  {
    assert l[i..][1..] == l[i + 1..];
    assert [] + After(l[i + 1..], cursor) == After(l[i + 1..], cursor);
  }

  lemma PickStep(e: DirEntry, a: seq<DirEntry>, withStat: bool, budget: nat)
    requires Cost(e.name, withStat) <= budget
    ensures Pick([e] + a, withStat, budget) ==
            ([Shown(e, withStat)] + Pick(a, withStat, budget - Cost(e.name, withStat)).0,
             Pick(a, withStat, budget - Cost(e.name, withStat)).1)
  {
    assert ([e] + a)[1..] == a;
  }

  /** The pass over the sorted listing, spending the byte budget entry by entry. */
  method ReadPage(l: Dir, id: u64, cursor: Bytes, withStat: bool) returns (resp: Response)
    ensures resp == Page(l, id, cursor, withStat)
  {
    var entries: seq<DirEntry> := [];
    var budget: nat := BUDGET;
    ghost var whole := Pick(After(l, cursor), withStat, BUDGET);
    ghost var rest := whole;
    assert l[0..] == l && [] + rest.0 == rest.0;
    for i := 0 to |l|
      invariant rest == Pick(After(l[i..], cursor), withStat, budget)
      invariant whole == (entries + rest.0, rest.1)
    {
      var e := l[i];
      AfterStep(l, i, cursor);
      if AlreadySent(cursor, e.name) {
        assert After(l[i..], cursor) == After(l[i + 1..], cursor);
        continue;
      }
      var cost := Cost(e.name, withStat);
      if cost > budget {
        assert rest == ([], true);
        return Response(id, HAS_ENTRIES + HAS_MORE, 0, None, entries, []);
      }
      PickStep(e, After(l[i + 1..], cursor), withStat, budget);
      budget := budget - cost;
      rest := Pick(After(l[i + 1..], cursor), withStat, budget);
      Rotate(entries, Shown(e, withStat), rest.0);
      entries := entries + [Shown(e, withStat)];
    }
    assert rest == ([], false);
    return Response(id, HAS_ENTRIES, 0, None, entries, []);
  }

  lemma Rotate<T>(a: seq<T>, x: T, b: seq<T>)
    ensures a + ([x] + b) == (a + [x]) + b
  {
  }

  // -------------------------------------------------- a page fits in one frame

  /** The running budget is at least what the encoder really spends, stat or no stat. */
  lemma {:induction false} BudgetCoversEncoding(a: seq<DirEntry>, withStat: bool, budget: nat)
    ensures var sent := Pick(a, withStat, budget).0;
            |EncEntries(sent)| <= budget && forall i | 0 <= i < |sent| :: |sent[i].name| <= budget
  {
    if a != [] && Cost(a[0].name, withStat) <= budget {
      BudgetCoversEncoding(a[1..], withStat, budget - Cost(a[0].name, withStat));
      var sent, rest := Pick(a, withStat, budget).0, Pick(a[1..], withStat, budget - Cost(a[0].name, withStat)).0;
      assert sent == [Shown(a[0], withStat)] + rest;
      assert sent[1..] == rest;
      assert forall i | 0 < i < |sent| :: sent[i] == rest[i - 1];
    }
  }

  /** A page always encodes within MaxFrame, and is what the round trip gives back unchanged. */
  lemma PageEncodes(l: Dir, id: u64, cursor: Bytes, withStat: bool)
    ensures var p := Page(l, id, cursor, withStat);
            Normal(p) == p && EncodeResponse(p).Ok? && |EncodeResponse(p).value| <= MAX_FRAME
  {
    var p := Page(l, id, cursor, withStat);
    BudgetCoversEncoding(After(l, cursor), withStat, BUDGET);
    assert |EncEntries(p.entries)| >= ENTRY_FIXED * |p.entries|;
    FlagsAreHonest(p);
    PageFlags(p);
    assert |ResponseBytes(p)| <= HEADROOM + |EncEntries(p.entries)|;
  }

  lemma PageFlags(p: Response)
    requires p.has in {HAS_ENTRIES, HAS_ENTRIES + HAS_MORE} && p.stat.None?
    ensures Test(p.has, HAS_ENTRIES) && !Test(p.has, HAS_STAT) && !Test(p.has, HAS_VALUE)
    ensures Test(p.has, HAS_MORE) <==> p.has == HAS_ENTRIES + HAS_MORE
  {
  }

  // ----------------------------------------------------------- what a page is

  ghost function Names(l: seq<DirEntry>): set<Bytes> { set i | 0 <= i < |l| :: l[i].name }

  lemma {:induction false} AfterKeepsAll(l: Dir, cursor: Bytes)
    requires forall i | 0 <= i < |l| :: !AlreadySent(cursor, l[i].name)
    ensures After(l, cursor) == l
  {
    if l != [] {
      AfterKeepsAll(l[1..], cursor);
    }
  }

  lemma {:induction false} AfterIsTheRest(l: Dir, cursor: Bytes) returns (k: nat)
    requires Sorted(l)
    ensures k <= |l| && After(l, cursor) == l[k..]
    ensures forall i | 0 <= i < |l| :: i < k <==> AlreadySent(cursor, l[i].name)
  {
    k := 0;
    if l == [] {
    } else if AlreadySent(cursor, l[0].name) {
      var j := AfterIsTheRest(l[1..], cursor);
      k := j + 1;
      assert forall i | 0 < i < |l| :: l[i] == l[1..][i - 1];
    } else {
      forall i | 0 <= i < |l| ensures !AlreadySent(cursor, l[i].name) {
        if cursor != [] && i > 0 {
          LessIsTransitive(cursor, l[0].name, l[i].name);
        }
      }
      AfterKeepsAll(l, cursor);
    }
  }

  /** A page is the longest affordable prefix of the rest; it says "more" exactly when something is left. */
  lemma {:induction false} PickIsAPrefix(a: seq<DirEntry>, withStat: bool, budget: nat)
    ensures var (sent, more) := Pick(a, withStat, budget);
            |sent| <= |a| && sent == ShownAll(a[..|sent|], withStat) && (more <==> |sent| < |a|)
  {
    if a != [] && Cost(a[0].name, withStat) <= budget {
      PickIsAPrefix(a[1..], withStat, budget - Cost(a[0].name, withStat));
      var n := |Pick(a, withStat, budget).0|;
      assert a[..n][1..] == a[1..][..n - 1];
    }
  }

  /** What entries take of the budget. */
  function Spent(es: seq<DirEntry>, withStat: bool): nat {
    if es == [] then 0 else Cost(es[0].name, withStat) + Spent(es[1..], withStat)
  }

  /** A page stays within the budget, and stops only where the next entry would not. */
  lemma {:induction false} PickIsLongest(a: seq<DirEntry>, withStat: bool, budget: nat)
    ensures var (sent, more) := Pick(a, withStat, budget);
            && Spent(sent, withStat) <= budget && |sent| <= |a|
            && (more ==> |sent| < |a| && Spent(sent, withStat) + Cost(a[|sent|].name, withStat) > budget)
  {
    if a != [] && Cost(a[0].name, withStat) <= budget {
      PickIsLongest(a[1..], withStat, budget - Cost(a[0].name, withStat));
      var (rest, more) := Pick(a[1..], withStat, budget - Cost(a[0].name, withStat));
      assert ([Shown(a[0], withStat)] + rest)[1..] == rest;
    }
  }

  /** A page that says "more" has no room for the next entry in its frame, reckoned with the stats asked for. */
  lemma PageIsFull(l: Dir, id: u64, cursor: Bytes, withStat: bool)
    ensures var p, rest := Page(l, id, cursor, withStat), After(l, cursor);
            Test(p.has, HAS_MORE) ==>
              && |p.entries| < |rest|
              && 8 + 4 + 1 + 4 + Spent(p.entries, withStat) + 4 + |rest[|p.entries|].name| + (if withStat then 48 else 0) > MAX_FRAME
  {
    PickIsLongest(After(l, cursor), withStat, BUDGET);
    PageFlags(Page(l, id, cursor, withStat));
  }

  /** With names a filesystem can hold, a page that says "more" is never empty. */
  lemma {:induction false} PageMakesProgress(l: Dir, cursor: Bytes, withStat: bool)
    requires Sorted(l) && ShortNames(l)
    ensures var (sent, more) := Pick(After(l, cursor), withStat, BUDGET); more ==> sent != []
  {
    var k := AfterIsTheRest(l, cursor);
    if k < |l| {
      assert After(l, cursor)[0] == l[k];
    }
  }

  // ------------------------------------------------------------- all the pages

  /** How many names of at most k bytes there are. */
  function Size(k: nat): (n: nat)
    ensures n >= 1
  {
    if k == 0 then 1 else 1 + 256 * Size(k - 1)
  }

  /** The place of a name among all names of at most k bytes, in name order. */
  function Rank(s: Bytes, k: nat): nat
    requires |s| <= k
  {
    if s == [] then 0 else 1 + s[0] * Size(k - 1) + Rank(s[1..], k - 1)
  }

  lemma Scale(x: nat, y: nat, z: nat)
    requires x <= y
    ensures x * z <= y * z
  {
  }

  lemma Apart(x: nat, y: nat, z: nat)
    requires x < y
    ensures x * z + z <= y * z
  {
    assert x * z + z == (x + 1) * z;
    Scale(x + 1, y, z);
  }

  lemma {:induction false} RankIsBelowSize(s: Bytes, k: nat)
    requires |s| <= k
    ensures Rank(s, k) < Size(k)
  {
    if s != [] {
      RankIsBelowSize(s[1..], k - 1);
      Scale(s[0], 255, Size(k - 1));
    }
  }

  lemma {:induction false} RankFollowsTheOrder(a: Bytes, b: Bytes, k: nat)
    requires |a| <= k && |b| <= k && Less(a, b)
    ensures Rank(a, k) < Rank(b, k)
  {
    if a != [] {
      if a[0] == b[0] {
        RankFollowsTheOrder(a[1..], b[1..], k - 1);
      } else {
        RankIsBelowSize(a[1..], k - 1);
        Apart(a[0], b[0], Size(k - 1));
      }
    }
  }

  datatype ListError = Failed | NoProgress | NotSent(why: WireError)

  /** What the directory is when page j is read; nothing where that request fails. */
  type World = nat -> Option<Dir>

  ghost predicate Sound(world: World) {
    forall j: nat :: world(j).Some? ==> Sorted(world(j).value) && ShortNames(world(j).value)
  }

  ghost predicate Answered(world: World, pages: nat) { forall j: nat | j < pages :: world(j).Some? }

  /** The name is in the directory at every one of the first `pages` requests. */
  ghost predicate Throughout(n: Bytes, world: World, pages: nat)
    requires Answered(world, pages)
  {
    forall j: nat | j < pages :: n in Names(world(j).value)
  }

  ghost predicate Seen(e: DirEntry, world: World, pages: nat, withStat: bool)
    requires Answered(world, pages)
  {
    exists j: nat | j < pages :: ListedIn(e, world(j).value, withStat)
  }

  /** The entry is one of the listing, with the stat the listing gives it if stats were asked for. */
  ghost predicate ListedIn(e: DirEntry, l: Dir, withStat: bool) {
    exists i | 0 <= i < |l| :: e == DirEntry(l[i].name, l[i].kind, if withStat then l[i].stat else None)
  }

  /** Asked for with stats a listing comes as it is, and otherwise with its names and kinds alone. */
  lemma ShownMeans(l: Dir, withStat: bool)
    ensures withStat ==> ShownAll(l, withStat) == l
    ensures !withStat ==> forall i | 0 <= i < |l| :: ShownAll(l, withStat)[i] == DirEntry(l[i].name, l[i].kind, None)
  {
  }

  function Cursor(out: seq<DirEntry>): Bytes { if out == [] then [] else out[|out| - 1].name }

  /** Everything at or before the cursor that stayed is collected, in order, from listings really read. */
  ghost predicate Collected(out: seq<DirEntry>, world: World, pages: nat, withStat: bool) {
    Answered(world, pages) && Sorted(out) && ShortNames(out)
    && (forall e | e in out :: Seen(e, world, pages, withStat))
    && (forall n | Throughout(n, world, pages) && AlreadySent(Cursor(out), n) :: n in Names(out))
  }

  /** The page read after `cursor` is the run of entries l[k..k + |sent|], where k skips what was sent before. */
  ghost predicate IsRun(sent: seq<DirEntry>, more: bool, l: Dir, k: nat, cursor: Bytes, withStat: bool) {
    k + |sent| <= |l| && sent == ShownAll(l[k..k + |sent|], withStat) && (more <==> k + |sent| < |l|)
    && forall i | 0 <= i < |l| :: i < k <==> AlreadySent(cursor, l[i].name)
  }

  lemma {:induction false} PageIsARun(l: Dir, cursor: Bytes, withStat: bool) returns (k: nat)
    requires Sorted(l)
    ensures var (sent, more) := Pick(After(l, cursor), withStat, BUDGET);
            IsRun(sent, more, l, k, cursor, withStat)
  {
    hide After, Pick;
    k := AfterIsTheRest(l, cursor);
    PickIsAPrefix(After(l, cursor), withStat, BUDGET);
    var n := |Pick(After(l, cursor), withStat, BUDGET).0|;
    assert l[k..][..n] == l[k..k + n];
  }

  lemma JoinedStaysSorted(out: seq<DirEntry>, sent: seq<DirEntry>, more: bool, l: Dir, k: nat, withStat: bool)
    requires Sorted(out) && ShortNames(out) && Sorted(l) && ShortNames(l)
    requires IsRun(sent, more, l, k, Cursor(out), withStat)
    ensures Sorted(out + sent) && ShortNames(out + sent)
  {
    var all := out + sent;
    assert forall j | |out| <= j < |all| :: all[j].name == l[k + j - |out|].name;
    forall i, j | 0 <= i < j < |all| ensures Less(all[i].name, all[j].name) {
      if i < |out| <= j {
        assert !AlreadySent(Cursor(out), all[j].name);
        if i < |out| - 1 {
          LessIsTransitive(all[i].name, Cursor(out), all[j].name);
        }
      }
    }
  }

  lemma LeftOverIsBeyond(out: seq<DirEntry>, sent: seq<DirEntry>, more: bool, l: Dir, k: nat, withStat: bool, i: nat)
    requires Sorted(l) && IsRun(sent, more, l, k, Cursor(out), withStat)
    requires k + |sent| <= i < |l|
    ensures more && !AlreadySent(Cursor(out + sent), l[i].name)
  {
    if sent == [] {
      assert out + sent == out;
    } else {
      assert Cursor(out + sent) == l[k + |sent| - 1].name;
    }
  }

  /** A name the directory has now is collected once it is at or before the new cursor, or once nothing is left. */
  lemma NameIsCollected(n: Bytes, out: seq<DirEntry>, sent: seq<DirEntry>, more: bool, l: Dir, k: nat, withStat: bool)
    requires Sorted(l) && n in Names(l) && IsRun(sent, more, l, k, Cursor(out), withStat)
    requires AlreadySent(Cursor(out), n) ==> n in Names(out)
    requires !more || AlreadySent(Cursor(out + sent), n)
    ensures n in Names(out + sent)
  {
    var all := out + sent;
    var i :| 0 <= i < |l| && l[i].name == n;
    if i < k {
      var j :| 0 <= j < |out| && out[j].name == n;
      assert all[j].name == n;
    } else if i < k + |sent| {
      assert all[|out| + i - k].name == n;
    } else {
      LeftOverIsBeyond(out, sent, more, l, k, withStat, i);
      assert false;
    }
  }

  lemma SeenLater(e: DirEntry, world: World, pages: nat, withStat: bool)
    requires Answered(world, pages + 1) && Seen(e, world, pages, withStat)
    ensures Seen(e, world, pages + 1, withStat)
  {
  }

  lemma EveryEntryWasSeen(out: seq<DirEntry>, sent: seq<DirEntry>, more: bool, k: nat, world: World, pages: nat, withStat: bool)
    requires Answered(world, pages + 1)
    requires forall e | e in out :: Seen(e, world, pages, withStat)
    requires IsRun(sent, more, world(pages).value, k, Cursor(out), withStat)
    ensures forall e | e in out + sent :: Seen(e, world, pages + 1, withStat)
  {
    var l := world(pages).value;
    forall e | e in out + sent ensures Seen(e, world, pages + 1, withStat) {
      if e in out {
        SeenLater(e, world, pages, withStat);
      } else {
        var i :| 0 <= i < |sent| && sent[i] == e;
        assert e == ShownAll(l, withStat)[k + i];
      }
    }
  }

  /** One page keeps the collection right, and the last page completes it. */
  lemma {:induction false} PageIsCollected(out: seq<DirEntry>, world: World, pages: nat, withStat: bool)
    requires Sound(world) && Collected(out, world, pages, withStat) && world(pages).Some?
    ensures var (sent, more) := Pick(After(world(pages).value, Cursor(out)), withStat, BUDGET);
            Collected(out + sent, world, pages + 1, withStat)
            && (more ==> sent != [])
            && (!more ==> forall n | Throughout(n, world, pages + 1) :: n in Names(out + sent))
  {
    var l := world(pages).value;
    hide After, Pick;
    var (sent, more) := Pick(After(l, Cursor(out)), withStat, BUDGET);
    var k := PageIsARun(l, Cursor(out), withStat);
    JoinedStaysSorted(out, sent, more, l, k, withStat);
    EveryEntryWasSeen(out, sent, more, k, world, pages, withStat);
    forall n | Throughout(n, world, pages + 1) && (!more || AlreadySent(Cursor(out + sent), n))
      ensures n in Names(out + sent)
    {
      assert Throughout(n, world, pages);
      NameIsCollected(n, out, sent, more, l, k, withStat);
    }
    if more {
      PageMakesProgress(l, Cursor(out), withStat);
    }
  }

  // ------------------------------------------------------ an unchanging directory

  ghost predicate Unchanged(world: World, pages: nat) { forall j: nat | j < pages :: world(j) == world(0) }

  /** So far the pages are exactly the beginning of the listing. */
  ghost predicate Prefix(out: seq<DirEntry>, l: Dir, withStat: bool) {
    |out| <= |l| && out == ShownAll(l[..|out|], withStat)
  }

  lemma CursorMarksThePrefix(out: seq<DirEntry>, l: Dir, withStat: bool, i: nat)
    requires Sorted(l) && Prefix(out, l, withStat) && i < |l|
    ensures AlreadySent(Cursor(out), l[i].name) <==> i < |out|
  {
    if out != [] {
      var m := |out| - 1;
      assert Cursor(out) == l[m].name;
      LessIsTotal(l[m].name, l[i].name);
    }
  }

  lemma SkipsThePrefix(out: seq<DirEntry>, sent: seq<DirEntry>, more: bool, l: Dir, k: nat, withStat: bool)
    requires Sorted(l) && Prefix(out, l, withStat) && IsRun(sent, more, l, k, Cursor(out), withStat)
    ensures k == |out|
  {
    if k < |out| {
      CursorMarksThePrefix(out, l, withStat, k);
    } else if |out| < k {
      CursorMarksThePrefix(out, l, withStat, |out|);
    }
  }

  lemma ShownJoined(a: seq<DirEntry>, b: seq<DirEntry>, withStat: bool)
    ensures ShownAll(a + b, withStat) == ShownAll(a, withStat) + ShownAll(b, withStat)
  {
  }

  lemma ShownSlices(l: Dir, k: nat, m: nat, withStat: bool)
    requires k <= m <= |l|
    ensures ShownAll(l[..k], withStat) + ShownAll(l[k..m], withStat) == ShownAll(l[..m], withStat)
    ensures l[..|l|] == l
  {
    hide ShownAll;
    ShownJoined(l[..k], l[k..m], withStat);
    assert l[..k] + l[k..m] == l[..m];
  }

  lemma PrefixAdvances(out: seq<DirEntry>, sent: seq<DirEntry>, more: bool, l: Dir, k: nat, withStat: bool)
    requires Sorted(l) && Prefix(out, l, withStat) && IsRun(sent, more, l, k, Cursor(out), withStat)
    ensures Prefix(out + sent, l, withStat) && (!more ==> out + sent == ShownAll(l, withStat))
  {
    var m := |out|;
    hide Sorted, AlreadySent, ShownAll;
    SkipsThePrefix(out, sent, more, l, k, withStat);
    ShownSlices(l, k, k + |sent|, withStat);
  }

  lemma {:induction false} UnchangedPage(out: seq<DirEntry>, world: World, pages: nat, withStat: bool)
    requires Sound(world) && world(pages).Some? && Unchanged(world, pages + 1)
    requires Prefix(out, world(0).value, withStat)
    ensures var (sent, more) := Pick(After(world(pages).value, Cursor(out)), withStat, BUDGET);
            Prefix(out + sent, world(0).value, withStat)
            && (!more ==> out + sent == ShownAll(world(0).value, withStat))
  {
    hide After, Pick;
    var l := world(pages).value;
    var (sent, more) := Pick(After(l, Cursor(out)), withStat, BUDGET);
    var k := PageIsARun(l, Cursor(out), withStat);
    PrefixAdvances(out, sent, more, l, k, withStat);
  }

  // ------------------------------------------------------------ the resume loop

  const OP_READDIR: u8 := 11
  const FLAG_WITH_STAT: u32 := 2

  function PageRequest(path: Bytes, id: u64, cursor: Bytes, withStat: bool): Request {
    Request(id, OP_READDIR, if withStat then FLAG_WITH_STAT else 0, 0, path, [], cursor, [])
  }

  predicate WantsStat(req: Request) { (req.flags / FLAG_WITH_STAT) % 2 == 1 }

  /** What a request takes besides its path and its cursor. */
  const REQUEST_FIXED := 27

  /** Why a request for a page cannot be sent at all. */
  function Unsendable(path: Bytes, cursor: Bytes): Option<WireError> {
    if |path| >= U16 || |cursor| >= U16 then Some(FieldTooLong)
    else if |path| + |cursor| + REQUEST_FIXED > MAX_FRAME then Some(TooLarge)
    else None
  }

  lemma PageRequestEncodes(path: Bytes, id: u64, cursor: Bytes, withStat: bool)
    ensures var req := PageRequest(path, id, cursor, withStat);
            WantsStat(req) == withStat
            && EncodeRequest(req) == match Unsendable(path, cursor) case Some(e) => Err(e) case None => Ok(RequestBytes(req))
  {
  }

  /** A directory that cannot be listed is answered with an error number. */
  function Answer(l: Option<Dir>, errno: u32, id: u64, cursor: Bytes, withStat: bool): Response {
    if l.Some? then Page(l.value, id, cursor, withStat) else Response(id, 0, errno, None, [], [])
  }

  lemma AnswerEncodes(l: Option<Dir>, errno: u32, id: u64, cursor: Bytes, withStat: bool)
    ensures var a := Answer(l, errno, id, cursor, withStat);
            a.has < 32 && Normal(a) == a && EncodeResponse(a).Ok?
  {
    if l.Some? {
      PageEncodes(l.value, id, cursor, withStat);
    } else {
      FlagsAreHonest(Answer(l, errno, id, cursor, withStat));
    }
  }

  /** The helper's side: it decodes the request and sends the encoded answer. */
  method Serve(l: Option<Dir>, errno: u32, frame: Bytes) returns (answer: Bytes)
    requires DecodeRequest(frame).Ok?
    ensures var req := DecodeRequest(frame).value;
            EncodeResponse(Answer(l, errno, req.id, req.name, WantsStat(req))) == Ok(answer)
  {
    var req := UnmarshalRequest(frame);
    var resp := Response(req.value.id, 0, errno, None, [], []);
    if l.Some? {
      resp := ReadPage(l.value, req.value.id, req.value.name, WantsStat(req.value));
    }
    AnswerEncodes(l, errno, req.value.id, req.value.name, WantsStat(req.value));
    var out := MarshalResponse(resp);
    answer := out.value;
  }

  /** One request for a page: the request crosses the wire, and so does the answer. */
  method Ask(path: Bytes, l: Option<Dir>, errno: u32, id: u64, cursor: Bytes, withStat: bool)
    returns (r: Result<Response, WireError>)
    ensures r == match Unsendable(path, cursor)
                 case Some(e) => Err(e)
                 case None => Ok(Answer(l, errno, id, cursor, withStat))
  {
    hide EncodeRequest, DecodeRequest, EncodeResponse, DecodeResponse, Answer, RequestBytes;
    var req := PageRequest(path, id, cursor, withStat);
    PageRequestEncodes(path, id, cursor, withStat);
    var frame := MarshalRequest(req);
    if frame.Err? { return Err(frame.error); }
    RequestRoundTrip(req);
    var answer := Serve(l, errno, frame.value);
    AnswerEncodes(l, errno, id, cursor, withStat);
    ResponseRoundTrip(Answer(l, errno, id, cursor, withStat));
    r := UnmarshalResponse(answer);
  }

  lemma NothingCollected(world: World, withStat: bool)
    ensures Collected([], world, 0, withStat)
    ensures world(0).Some? ==> Prefix([], world(0).value, withStat)
  {
    if world(0).Some? {
      assert world(0).value[..0] == [];
    }
  }

  lemma CursorFits(out: seq<DirEntry>, world: World, pages: nat, withStat: bool)
    requires Collected(out, world, pages, withStat)
    ensures |Cursor(out)| <= NAME_MAX && Rank(Cursor(out), NAME_MAX) < Size(NAME_MAX)
  {
    RankIsBelowSize(Cursor(out), NAME_MAX);
  }

  lemma AllIsRight(out: seq<DirEntry>, world: World, pages: nat, withStat: bool)
    requires Collected(out, world, pages, withStat)
    ensures Answered(world, pages) && Sorted(out) && forall e | e in out :: Seen(e, world, pages, withStat)
  {
  }

  /**
   Collects the whole listing page by page.  It always ends, never without progress, and returns
   names in order, each once: every name that was there at every page, and only entries that
   were there at some page; an unchanging directory comes back exactly.
   */
  method ReadDir(path: Bytes, world: World, errno: u32, id: u64, withStat: bool)
    returns (r: Result<seq<DirEntry>, ListError>, pages: nat)
    requires Sound(world) && errno != 0
    ensures r.Err? ==>
              (r.error == Failed && world(pages).None?)
              || (r.error.NotSent? && |path| + NAME_MAX + REQUEST_FIXED > MAX_FRAME)
    ensures r.Ok? ==> Answered(world, pages) && Sorted(r.value)
    ensures r.Ok? ==> forall e | e in r.value :: Seen(e, world, pages, withStat)
    ensures r.Ok? ==> forall n | Throughout(n, world, pages) :: n in Names(r.value)
    ensures r.Ok? && Unchanged(world, pages) ==> pages > 0 && |r.value| == |world(0).value|
    ensures r.Ok? && Unchanged(world, pages) && withStat ==> r.value == world(0).value
    ensures r.Ok? && Unchanged(world, pages) && !withStat ==>
              forall i | 0 <= i < |r.value| :: r.value[i] == DirEntry(world(0).value[i].name, world(0).value[i].kind, None)
  {
    hide After, Pick, Collected, Prefix, Sound, Sorted, ShortNames, Rank, Size, AlreadySent, Throughout, Seen, Names;
    NothingCollected(world, withStat);
    if world(0).Some? {
      ShownMeans(world(0).value, withStat);
    }
    var out: seq<DirEntry> := [];
    var cursor: Bytes := [];
    var i: nat := 0;
    pages := 0;
    while true
      invariant pages == i && cursor == Cursor(out) && |cursor| <= NAME_MAX
      invariant Collected(out, world, i, withStat)
      invariant Unchanged(world, i) && world(0).Some? ==> Prefix(out, world(0).value, withStat)
      decreases Size(NAME_MAX) - Rank(cursor, NAME_MAX)
    {
      CursorFits(out, world, i, withStat);
      var got := Ask(path, world(i), errno, id, cursor, withStat);
      if got.Err? { return Err(NotSent(got.error)), i; }
      var resp := got.value;
      if resp.errno != 0 { return Err(Failed), i; }
      PageIsCollected(out, world, i, withStat);
      if Unchanged(world, i + 1) {
        UnchangedPage(out, world, i, withStat);
      }
      PageFlags(resp);
      ghost var before := out;
      out := out + resp.entries;
      i := i + 1;
      pages := i;
      AllIsRight(out, world, i, withStat);
      if !Test(resp.has, HAS_MORE) { return Ok(out), i; }
      if |resp.entries| == 0 {
        // The helper said there is more but sent nothing: this cannot happen.
        assert false;
      }
      RankAdvances(before, resp.entries, world, i, withStat);
      cursor := out[|out| - 1].name;
    }
  }

  lemma RankAdvances(out: seq<DirEntry>, sent: seq<DirEntry>, world: World, pages: nat, withStat: bool)
    requires Collected(out + sent, world, pages, withStat) && sent != []
    ensures |Cursor(out)| <= NAME_MAX && |Cursor(out + sent)| <= NAME_MAX
    ensures Rank(Cursor(out), NAME_MAX) < Rank(Cursor(out + sent), NAME_MAX)
  {
    var all := out + sent;
    assert |all[|all| - 1].name| <= NAME_MAX;
    if out != [] {
      assert all[|out| - 1] == out[|out| - 1];
      assert Less(all[|out| - 1].name, all[|all| - 1].name);
      assert |all[|out| - 1].name| <= NAME_MAX;
    }
    RankFollowsTheOrder(Cursor(out), Cursor(all), NAME_MAX);
  }
}
