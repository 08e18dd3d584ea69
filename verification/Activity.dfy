/**
 The activity log (internal/activity/store.go, internal/activity/activity.go): one file per
 UTC day, a rolling window, and a query that stops early.

 Times are nanoseconds since the epoch.  A file is named after its day, kept here as the
 day's number, which orders as the date in the name does.
 */
module Activity {
  import opened Common

  const DAY := 86400000000000
  const DEFAULT_LIMIT := 500

  datatype Event = Event(at: int, user: string, action: string, path: string, to: string)

  /** A line that does not parse is what a write cut short leaves behind, alone or with what was appended to it. */
  datatype Line = Good(e: Event) | Torn

  type Files = map<int, seq<Line>>

  /** The filters; None and "" mean any. */
  datatype Query = Query(user: string, path: string, action: string, since: Option<int>, limit: int)

  /** The number of the UTC day: the division rounds down, before the epoch too. */
  function DayOf(at: int): (d: int)
    ensures d * DAY <= at < (d + 1) * DAY
  {
    at / DAY
  }

  predicate Contains(s: string, sub: string) {
    exists i | 0 <= i <= |s| :: StartsAt(s, sub, i)
  }

  predicate StartsAt(s: string, sub: string, i: int) {
    0 <= i <= |s| - |sub| && s[i..i + |sub|] == sub
  }

  predicate Matches(q: Query, e: Event) {
    (q.user == "" || e.user == q.user)
    && (q.action == "" || e.action == q.action)
    && (q.path == "" || Contains(e.path, q.path) || Contains(e.to, q.path))
    && (q.since.None? || q.since.value <= e.at)
  }

  function Limit(q: Query): (n: nat)
    ensures n > 0 && (q.limit > 0 ==> n == q.limit) && (q.limit <= 0 ==> n == 500)
  {
    if q.limit <= 0 then DEFAULT_LIMIT else q.limit
  }

  /** A day's matching events, in the order they were recorded. */
  function Kept(lines: seq<Line>, q: Query): seq<Event> {
    if lines == [] then []
    else (if lines[0].Good? && Matches(q, lines[0].e) then [lines[0].e] else []) + Kept(lines[1..], q)
  }

  /** Every matching event, reading the days in the order given. */
  function Everything(files: Files, days: seq<int>, q: Query): seq<Event>
    requires forall i | 0 <= i < |days| :: days[i] in files
  {
    if days == [] then [] else Kept(files[days[0]], q) + Everything(files, days[1..], q)
  }

  // ------------------------------------------------------------ the stable sort

  function Insert(e: Event, s: seq<Event>): seq<Event> {
    if s == [] || s[0].at <= e.at then [e] + s else [s[0]] + Insert(e, s[1..])
  }

  function NewestFirst(es: seq<Event>): seq<Event> {
    if es == [] then [] else Insert(es[0], NewestFirst(es[1..]))
  }

  ghost predicate Descending(s: seq<Event>) {
    forall i, j | 0 <= i < j < |s| :: s[i].at >= s[j].at
  }

  /** The events of one moment, in order. */
  function OfTime(s: seq<Event>, t: int): seq<Event> {
    if s == [] then [] else (if s[0].at == t then [s[0]] else []) + OfTime(s[1..], t)
  }

  /** Newest first, and the events of one moment in the order they had. */
  ghost predicate IsStableSort(es: seq<Event>, r: seq<Event>) {
    Descending(r) && forall t :: OfTime(r, t) == OfTime(es, t)
  }

  lemma OfTimeCons(e: Event, s: seq<Event>, t: int)
    ensures OfTime([e] + s, t) == (if e.at == t then [e] else []) + OfTime(s, t)
  {
    assert ([e] + s)[1..] == s;
  }

  lemma {:induction false} OfTimeJoined(a: seq<Event>, b: seq<Event>, t: int)
    ensures OfTime(a + b, t) == OfTime(a, t) + OfTime(b, t)
  {
    if a == [] {
      assert a + b == b;
    } else {
      OfTimeJoined(a[1..], b, t);
      OfTimeCons(a[0], a[1..], t);
      OfTimeCons(a[0], a[1..] + b, t);
      assert a + b == [a[0]] + (a[1..] + b) && a == [a[0]] + a[1..];
      hide OfTime;
    }
  }

  lemma {:induction false} InsertKeepsOrder(e: Event, s: seq<Event>)
    requires Descending(s)
    ensures Descending(Insert(e, s)) && forall x | x in Insert(e, s) :: x == e || x in s
  {
    if s != [] && s[0].at > e.at {
      InsertKeepsOrder(e, s[1..]);
      var r, tail := Insert(e, s), Insert(e, s[1..]);
      assert r == [s[0]] + tail;
      forall j | 0 < j < |r| ensures r[0].at >= r[j].at {
        assert r[j] in tail;
      }
    }
  }

  lemma {:induction false} InsertKeepsMoments(e: Event, s: seq<Event>, t: int)
    ensures OfTime(Insert(e, s), t) == (if e.at == t then [e] else []) + OfTime(s, t)
  {
    if s == [] || s[0].at <= e.at {
      OfTimeCons(e, s, t);
    } else {
      InsertKeepsMoments(e, s[1..], t);
      OfTimeCons(s[0], s[1..], t);
      OfTimeCons(s[0], Insert(e, s[1..]), t);
      assert s == [s[0]] + s[1..];
      hide OfTime;
    }
  }

  lemma InsertIsStable(e: Event, s: seq<Event>)
    requires Descending(s)
    ensures Descending(Insert(e, s))
    ensures forall t :: OfTime(Insert(e, s), t) == (if e.at == t then [e] else []) + OfTime(s, t)
  {
    InsertKeepsOrder(e, s);
    forall t ensures OfTime(Insert(e, s), t) == (if e.at == t then [e] else []) + OfTime(s, t) {
      InsertKeepsMoments(e, s, t);
    }
  }

  lemma {:induction false} NewestFirstIsStable(es: seq<Event>)
    ensures IsStableSort(es, NewestFirst(es))
  {
    if es != [] {
      NewestFirstIsStable(es[1..]);
      InsertIsStable(es[0], NewestFirst(es[1..]));
    }
  }

  lemma {:induction false} OfTimeFinds(s: seq<Event>, i: nat)
    requires i < |s|
    ensures OfTime(s, s[i].at) != []
  {
    if i > 0 {
      OfTimeFinds(s[1..], i - 1);
    }
  }

  lemma {:induction false} OfTimeIsFrom(s: seq<Event>, t: int)
    ensures forall x | x in OfTime(s, t) :: x in s && x.at == t
  {
    if s != [] {
      OfTimeIsFrom(s[1..], t);
    }
  }

  lemma SameNewest(r: seq<Event>, s: seq<Event>)
    requires r != [] && Descending(r) && Descending(s) && forall t :: OfTime(r, t) == OfTime(s, t)
    ensures s != [] && r[0] == s[0]
  {
    OfTimeFinds(r, 0);
    OfTimeIsFrom(s, r[0].at);
    assert OfTime(s, r[0].at)[0] in s;
    OfTimeFinds(s, 0);
    OfTimeIsFrom(r, s[0].at);
    assert OfTime(r, s[0].at)[0] in r;
    assert r[0].at == s[0].at;
    assert OfTime(r, r[0].at)[0] == r[0] && OfTime(s, s[0].at)[0] == s[0];
  }

  /** There is only one stable sort. */
  lemma {:induction false} StableSortIsUnique(r: seq<Event>, s: seq<Event>)
    requires Descending(r) && Descending(s) && forall t :: OfTime(r, t) == OfTime(s, t)
    ensures r == s
  {
    if r == [] {
      if s != [] {
        SameNewest(s, r);
      }
    } else {
      SameNewest(r, s);
      forall t ensures OfTime(r[1..], t) == OfTime(s[1..], t) {
        var k := if r[0].at == t then 1 else 0;
        assert OfTime(r[1..], t) == OfTime(r, t)[k..] && OfTime(s[1..], t) == OfTime(s, t)[k..];
      }
      StableSortIsUnique(r[1..], s[1..]);
    }
  }

  /** Newer events sort apart from older ones. */
  lemma SortsApart(a: seq<Event>, b: seq<Event>)
    requires forall x, y | x in a && y in b :: x.at > y.at
    ensures NewestFirst(a + b) == NewestFirst(a) + NewestFirst(b)
  {
    NewestFirstIsStable(a);
    NewestFirstIsStable(b);
    NewestFirstIsStable(a + b);
    var r, s := NewestFirst(a), NewestFirst(b);
    forall t ensures OfTime(r + s, t) == OfTime(a + b, t) {
      OfTimeJoined(r, s, t);
      OfTimeJoined(a, b, t);
    }
    SameMembers(a, r);
    SameMembers(b, s);
    assert Descending(r + s) by {
      forall i, j | 0 <= i < j < |r + s| ensures (r + s)[i].at >= (r + s)[j].at {
        if i < |r| <= j {
          assert r[i] in a && s[j - |r|] in b;
        }
      }
    }
    StableSortIsUnique(NewestFirst(a + b), r + s);
  }

  lemma SameMembers(es: seq<Event>, r: seq<Event>)
    requires IsStableSort(es, r)
    ensures forall x | x in r :: x in es
  {
    forall x | x in r ensures x in es {
      var i :| 0 <= i < |r| && r[i] == x;
      MemberOfTime(r, i);
      OfTimeIsFrom(es, x.at);
    }
  }

  lemma {:induction false} MemberOfTime(s: seq<Event>, i: nat)
    requires i < |s|
    ensures s[i] in OfTime(s, s[i].at)
  {
    if i > 0 {
      MemberOfTime(s[1..], i - 1);
    }
  }

  // ------------------------------------------------------- each event in its day

  /** Every file holds events of its own day only. */
  ghost predicate ByDay(files: Files) {
    forall d, i | d in files && 0 <= i < |files[d]| && files[d][i].Good? :: DayOf(files[d][i].e.at) == d
  }

  /** The days read so far and those still to come, newest first. */
  ghost predicate Listing(days: seq<int>, files: Files) {
    (forall i | 0 <= i < |days| :: days[i] in files)
    && (forall d | d in files :: d in days)
    && NoDup(days)
  }

  ghost predicate NewestDayFirst(days: seq<int>) { forall i, j | 0 <= i < j < |days| :: days[i] > days[j] }

  ghost predicate All(days: seq<int>, files: Files) { forall i | 0 <= i < |days| :: days[i] in files }

  lemma {:induction false} KeptIsFrom(lines: seq<Line>, q: Query)
    ensures forall x | x in Kept(lines, q) :: Good(x) in lines && Matches(q, x)
  {
    if lines != [] {
      KeptIsFrom(lines[1..], q);
    }
  }

  lemma {:induction false} EverythingIsFrom(files: Files, days: seq<int>, q: Query)
    requires All(days, files) && ByDay(files)
    ensures forall x | x in Everything(files, days, q) :: DayOf(x.at) in days && Matches(q, x)
  {
    if days != [] {
      EverythingIsFrom(files, days[1..], q);
      KeptIsFrom(files[days[0]], q);
      forall x | x in Everything(files, days, q) ensures DayOf(x.at) in days && Matches(q, x) {
        if x in Kept(files[days[0]], q) {
          var i :| 0 <= i < |files[days[0]]| && files[days[0]][i] == Good(x);
          assert DayOf(files[days[0]][i].e.at) == days[0];
        }
      }
    }
  }

  lemma {:induction false} EverythingJoined(files: Files, a: seq<int>, b: seq<int>, q: Query)
    requires All(a, files) && All(b, files)
    ensures All(a + b, files) && Everything(files, a + b, q) == Everything(files, a, q) + Everything(files, b, q)
  {
    if a == [] {
      assert a + b == b;
    } else {
      assert (a + b)[1..] == a[1..] + b;
      EverythingJoined(files, a[1..], b, q);
    }
  }

  /** A moment's events are all in one file, so the order of the files does not matter to them. */
  lemma {:induction false} OfTimeIsInItsDay(files: Files, days: seq<int>, q: Query, t: int)
    requires All(days, files) && ByDay(files) && NoDup(days)
    ensures OfTime(Everything(files, days, q), t)
            == if DayOf(t) in days then OfTime(Kept(files[DayOf(t)], q), t) else []
  {
    if days != [] {
      var d := days[0];
      OfTimeIsInItsDay(files, days[1..], q, t);
      OfTimeJoined(Kept(files[d], q), Everything(files, days[1..], q), t);
      if d != DayOf(t) {
        OfTimeElsewhere(files[d], q, t);
      }
      assert days == [d] + days[1..] && d !in days[1..];
    }
  }

  lemma {:induction false} OfTimeElsewhere(lines: seq<Line>, q: Query, t: int)
    requires forall i | 0 <= i < |lines| && lines[i].Good? :: DayOf(lines[i].e.at) != DayOf(t)
    ensures OfTime(Kept(lines, q), t) == []
  {
    if lines != [] {
      var rest := Kept(lines[1..], q);
      OfTimeElsewhere(lines[1..], q, t);
      if lines[0].Good? && Matches(q, lines[0].e) {
        assert DayOf(lines[0].e.at) != DayOf(t);
        assert ([lines[0].e] + rest)[1..] == rest;
      } else {
        assert [] + rest == rest;
      }
    }
  }

  /** Sorted newest first, the whole log does not depend on the order its files are read in. */
  lemma ReadingOrderDoesNotMatter(files: Files, a: seq<int>, b: seq<int>, q: Query)
    requires Listing(a, files) && Listing(b, files) && ByDay(files)
    ensures NewestFirst(Everything(files, a, q)) == NewestFirst(Everything(files, b, q))
  {
    var x, y := Everything(files, a, q), Everything(files, b, q);
    NewestFirstIsStable(x);
    NewestFirstIsStable(y);
    forall t ensures OfTime(NewestFirst(x), t) == OfTime(NewestFirst(y), t) {
      OfTimeIsInItsDay(files, a, q, t);
      OfTimeIsInItsDay(files, b, q, t);
    }
    StableSortIsUnique(NewestFirst(x), NewestFirst(y));
  }

  // ------------------------------------------------------------ stopping early

  lemma {:induction false} NewestFirstLength(es: seq<Event>)
    ensures |NewestFirst(es)| == |es|
  {
    if es != [] {
      NewestFirstLength(es[1..]);
      InsertLength(es[0], NewestFirst(es[1..]));
    }
  }

  lemma {:induction false} InsertLength(e: Event, s: seq<Event>)
    ensures |Insert(e, s)| == |s| + 1
  {
    if s != [] {
      InsertLength(e, s[1..]);
    }
  }

  function Take(n: nat, s: seq<Event>): seq<Event> { if |s| > n then s[..n] else s }

  /** What the query promises: every day read, filtered, sorted newest first, the first `limit` taken. */
  function Answer(files: Files, days: seq<int>, q: Query): seq<Event>
    requires forall i | 0 <= i < |days| :: days[i] in files
  {
    Take(Limit(q), NewestFirst(Everything(files, days, q)))
  }

  /** What the filters ask of an event: each that is set. */
  ghost predicate Wanted(q: Query, e: Event) {
    && (q.user != "" ==> e.user == q.user)
    && (q.action != "" ==> e.action == q.action)
    && (q.path != "" ==> exists i: int :: StartsAt(e.path, q.path, i) || StartsAt(e.to, q.path, i))
    && (q.since.Some? ==> e.at >= q.since.value)
  }

  lemma MatchesIffWanted(q: Query, e: Event)
    ensures Matches(q, e) <==> Wanted(q, e)
  {
    if i: int :| StartsAt(e.path, q.path, i) || StartsAt(e.to, q.path, i) {
      assert StartsAt(e.path, q.path, i) ==> Contains(e.path, q.path);
      assert StartsAt(e.to, q.path, i) ==> Contains(e.to, q.path);
    }
  }

  ghost predicate RecordedIn(files: Files, days: seq<int>, e: Event) {
    exists d | d in days :: d in files && Good(e) in files[d]
  }

  lemma {:induction false} KeptHas(lines: seq<Line>, q: Query, e: Event)
    ensures e in Kept(lines, q) <==> Good(e) in lines && Wanted(q, e)
  {
    hide Matches, Wanted;
    if lines != [] {
      KeptHas(lines[1..], q, e);
      MatchesIffWanted(q, e);
      assert lines == [lines[0]] + lines[1..];
    }
  }

  lemma NothingRecorded(files: Files, e: Event)
    ensures !RecordedIn(files, [], e)
  {
  }

  lemma RecordedLater(files: Files, days: seq<int>, e: Event)
    requires days != [] && days[0] in files
    ensures RecordedIn(files, days, e) <==> Good(e) in files[days[0]] || RecordedIn(files, days[1..], e)
  {
    assert days == [days[0]] + days[1..];
    if d :| d in days[1..] && d in files && Good(e) in files[d] {
      assert d in days;
    }
    if Good(e) in files[days[0]] {
      var d := days[0];
      assert d in days && d in files && Good(e) in files[d];
    }
  }

  lemma {:induction false} EverythingHas(files: Files, days: seq<int>, q: Query, e: Event)
    requires All(days, files)
    ensures e in Everything(files, days, q) <==> RecordedIn(files, days, e) && Wanted(q, e)
  {
    hide Wanted, Kept, RecordedIn;
    if days == [] {
      NothingRecorded(files, e);
    } else {
      EverythingHas(files, days[1..], q, e);
      KeptHas(files[days[0]], q, e);
      RecordedLater(files, days, e);
    }
  }

  lemma SortHas(es: seq<Event>, e: Event)
    ensures e in NewestFirst(es) <==> e in es
  {
    NewestFirstIsStable(es);
    SameMembers(es, NewestFirst(es));
    if i :| 0 <= i < |es| && es[i] == e {
      MemberOfTime(es, i);
      OfTimeIsFrom(NewestFirst(es), e.at);
    }
  }

  /**
   What an answer holds: recorded events that meet every filter set, newest first and no more than the limit; and every
   recorded event that meets them, unless the limit is reached by events that are no older.
   */
  lemma AnswerMeans(files: Files, days: seq<int>, q: Query)
    requires All(days, files)
    ensures var r := Answer(files, days, q);
            && |r| <= Limit(q) && Descending(r)
            && (forall e | e in r :: RecordedIn(files, days, e) && Wanted(q, e))
            && (forall e | RecordedIn(files, days, e) && Wanted(q, e) :: e in r || (|r| == Limit(q) && forall x | x in r :: x.at >= e.at))
  {
    hide RecordedIn, Wanted, Everything, NewestFirst;
    var all := Everything(files, days, q);
    var sorted := NewestFirst(all);
    NewestFirstIsStable(all);
    var r := Answer(files, days, q);
    forall e ensures e in sorted <==> RecordedIn(files, days, e) && Wanted(q, e) {
      EverythingHas(files, days, q, e);
      SortHas(all, e);
    }
    forall e | e in sorted && e !in r ensures |r| == Limit(q) && forall x | x in r :: x.at >= e.at {
      var j :| 0 <= j < |sorted| && sorted[j] == e;
      assert |sorted| > Limit(q) && r == sorted[..Limit(q)];
      assert forall i | 0 <= i < |r| :: r[i] == sorted[i] && r[i] != e;
      forall x | x in r ensures x.at >= e.at {
        var i :| 0 <= i < |r| && r[i] == x;
        assert sorted[i] == x;
      }
    }
  }

  /** Days at or after one that was read hold nothing older than what the rest hold. */
  lemma RestIsOlder(files: Files, days: seq<int>, i: nat, q: Query)
    requires All(days, files) && ByDay(files) && NewestDayFirst(days) && i <= |days|
    ensures All(days[..i], files) && All(days[i..], files)
    ensures var a, b := Everything(files, days[..i], q), Everything(files, days[i..], q);
            Everything(files, days, q) == a + b && forall x, y | x in a && y in b :: x.at > y.at
  {
    EverythingJoined(files, days[..i], days[i..], q);
    assert days[..i] + days[i..] == days;
    EverythingIsFrom(files, days[..i], q);
    EverythingIsFrom(files, days[i..], q);
    var a, b := Everything(files, days[..i], q), Everything(files, days[i..], q);
    forall x, y | x in a && y in b ensures x.at > y.at {
      var j :| 0 <= j < i && days[..i][j] == DayOf(x.at);
      var k :| 0 <= k < |days| - i && days[i..][k] == DayOf(y.at);
      assert days[j] > days[i + k];
    }
  }

  /** Enough from the newest days is enough. */
  lemma EnoughIsEnough(files: Files, days: seq<int>, i: nat, q: Query)
    requires All(days, files) && ByDay(files) && NewestDayFirst(days) && i <= |days|
    requires All(days[..i], files) && |Everything(files, days[..i], q)| >= Limit(q)
    ensures Answer(files, days[..i], q) == Answer(files, days, q)
  {
    RestIsOlder(files, days, i, q);
    var a, b := Everything(files, days[..i], q), Everything(files, days[i..], q);
    SortsApart(a, b);
    NewestFirstLength(a);
    var n := Limit(q);
    assert (NewestFirst(a) + NewestFirst(b))[..n] == NewestFirst(a)[..n];
  }

  lemma LaterDaysAreOlder(days: seq<int>, i: nat, d: int)
    requires NewestDayFirst(days) && i < |days| && d in days[i..]
    ensures d <= days[i]
  {
    var k :| 0 <= k < |days| - i && days[i..][k] == d;
    assert d == days[i + k];
  }

  /** Days before the one `since` falls in hold nothing that matches. */
  lemma BeforeSinceIsNothing(files: Files, days: seq<int>, i: nat, q: Query)
    requires All(days, files) && ByDay(files) && NewestDayFirst(days) && i < |days|
    requires q.since.Some? && days[i] < DayOf(q.since.value) && All(days[..i], files)
    ensures Answer(files, days[..i], q) == Answer(files, days, q)
  {
    RestIsOlder(files, days, i, q);
    EverythingIsFrom(files, days[i..], q);
    var b := Everything(files, days[i..], q);
    if b != [] {
      assert b[0] in b;
      LaterDaysAreOlder(days, i, DayOf(b[0].at));
      assert false;
    }
    assert Everything(files, days[..i], q) + b == Everything(files, days[..i], q);
  }

  // ------------------------------------------------------------------ the store

  /** How much of the line reached the file; only a whole line is acknowledged. */
  datatype Written = Whole | AllButNewline | PartOfIt | NothingWritten

  datatype RecordError = CannotOpen | CannotWrite

  predicate Opened(open: set<int>, files: Files) { forall d | d in open :: d in files && files[d] != [] }

  /** A line after one without its newline continues that one, and the two together do not parse. */
  function Appended(lines: seq<Line>, open: bool, line: Line): (r: seq<Line>)
    requires open ==> lines != []
  {
    if open then lines[..|lines| - 1] + [Torn] else lines + [line]
  }

  /** The lines that have their newline. */
  function Ended(lines: seq<Line>, open: bool): seq<Line>
    requires open ==> lines != []
  {
    if open then lines[..|lines| - 1] else lines
  }

  lemma AppendingKeepsEnded(lines: seq<Line>, open: bool, line: Line, still: bool)
    requires open ==> lines != []
    ensures Ended(lines, open) <= Ended(Appended(lines, open, line), still)
    ensures Appended(lines, open, line) == Ended(lines, open) + [if open then Torn else line]
  {
  }

  lemma AppendingKeepsByDay(files: Files, open: set<int>, d: int, line: Line)
    requires ByDay(files) && Opened(open, files) && d in files && (line.Good? ==> DayOf(line.e.at) == d)
    ensures var after := files[d := Appended(files[d], d in open, line)];
            ByDay(after) && Opened(open, after) && after[d] != []
  {
    var after: Files := files[d := Appended(files[d], d in open, line)];
    forall x: int, i: int | x in after && 0 <= i < |after[x]| && after[x][i].Good? ensures DayOf(after[x][i].e.at) == x {
      assert x != d ==> after[x] == files[x];
      assert x == d && i < |files[d]| - 1 ==> after[d][i] == files[d][i];
    }
  }

  function LinesOf(files: Files, d: int): seq<Line> { if d in files then files[d] else [] }

  function Stamped(when: Option<int>, e: Event, now: int): Event { e.(at := if when.Some? then when.value else now) }

  lemma EndedIsAPrefix(files: Files, after: Files, open: set<int>, still: set<int>, d: int)
    requires Opened(open, files) && Opened(still, after)
    requires forall x | x in after && x != d :: x in files && after[x] == files[x] && (x in still <==> x in open)
    requires d in files && d in after ==> Ended(files[d], d in open) <= Ended(after[d], d in still)
    ensures forall x | x in after && x in files :: Ended(files[x], x in open) <= Ended(after[x], x in still)
  {
  }

  /** One replica's store: the directory, and the day whose file it holds open. */
  class Store {
    var files: Files
    /** The days whose last line has no newline: a write that was cut short. */
    var open: set<int>
    var day: Option<int>
    const keep: nat

    ghost predicate Valid()
      reads this
    {
      ByDay(files) && (day.Some? ==> day.value in files) && Opened(open, files)
    }

    constructor (window: nat)
      ensures Valid() && files == map[] && keep == window
    {
      files, open, day, keep := map[], {}, None, window;
    }

    /** Deletes the files of days before the window, by the day in the name; a removal that fails is passed over. */
    method Prune(at: int, removable: int -> bool)
      requires Opened(open, files)
      modifies this`files, this`open
      ensures forall d :: d in files <==> d in old(files) && (d >= DayOf(at - keep) || !removable(d))
      ensures forall d | d in files :: files[d] == old(files)[d]
      ensures Opened(open, files) && forall d | d in files :: d in open <==> d in old(open)
    {
      var cutoff := DayOf(at - keep);
      var names := files.Keys;
      ghost var before, torn := files, open;
      while names != {}
        invariant names <= before.Keys
        invariant files == map d | d in before && (d in names || d >= cutoff || !removable(d)) :: before[d]
        invariant forall d | d in files :: d in open <==> d in torn
        invariant Opened(open, files)
        decreases names
      {
        HasMember(names);
        var d :| d in names;
        if d < cutoff && removable(d) {
          files := files - {d};
          open := open - {d};
        }
        names := names - {d};
      }
    }

    /** Switches to the file of the event's day; the window is pruned only on a switch. */
    method Roll(at: int, canOpen: bool, removable: int -> bool) returns (ok: bool)
      requires Valid()
      modifies this
      ensures Valid() && ok == (canOpen || old(day) == Some(DayOf(at)))
      ensures !ok ==> day == None && files == old(files) && open == old(open)
      ensures ok ==> day == Some(DayOf(at)) && DayOf(at) in files
      ensures ok ==> files[DayOf(at)] == if DayOf(at) in old(files) then old(files)[DayOf(at)] else []
      ensures ok ==> forall d | d != DayOf(at) && d >= DayOf(at - keep) ::
                (d in files <==> d in old(files)) && (d in files ==> files[d] == old(files)[d])
      ensures ok ==> forall d | d in files && d != DayOf(at) :: d in old(files) && files[d] == old(files)[d]
      ensures forall d | d in files :: d in open <==> d in old(open)
    {
      var today := DayOf(at);
      if day == Some(today) { return true; }
      day := None;
      if !canOpen { return false; }
      if today !in files {
        files := files[today := []];
      }
      assert DayOf(at - keep) <= today;
      Prune(at, removable);
      day := Some(today);
      return true;
    }

    /** One write to the open file; a write cut short leaves the last line without its newline. */
    method Append(d: int, line: Line, whole: bool)
      requires Valid() && d in files && (line.Good? ==> DayOf(line.e.at) == d)
      modifies this`files, this`open
      ensures Valid()
      ensures files == old(files)[d := Appended(old(files)[d], d in old(open), line)]
      ensures open == if whole then old(open) - {d} else old(open) + {d}
    {
      AppendingKeepsByDay(files, open, d, line);
      files := files[d := Appended(files[d], d in open, line)];
      open := if whole then open - {d} else open + {d};
    }

    /**
     Appends an event, stamped now when it has no time, to the file of its own UTC day, and to
     no other; what is inside the window stays.  An event that was acknowledged is in the file to be read
     exactly if the file ended in a newline before, and no line that ever got its newline changes.
     */
    method Record(when: Option<int>, e: Event, now: int, canOpen: bool, removable: int -> bool, written: Written)
      returns (r: Result<Event, RecordError>)
      requires Valid()
      modifies this
      ensures Valid()
      ensures r.Ok? ==> r.value == Stamped(when, e, now) && DayOf(r.value.at) in files && DayOf(r.value.at) !in open
      ensures var d := DayOf(Stamped(when, e, now).at);
              r.Ok? ==> files[d] == Ended(LinesOf(old(files), d), d in old(open)) + [if d in old(open) then Torn else Good(r.value)]
      ensures var at := Stamped(when, e, now).at;
              forall d | d != DayOf(at) && d >= DayOf(at - keep) ::
                (d in files <==> d in old(files)) && (d in files ==> files[d] == old(files)[d])
      ensures forall d | d in files && d in old(files) ::
                Ended(old(files)[d], d in old(open)) <= Ended(files[d], d in open)
      ensures r.Ok? <==> written.Whole? && (canOpen || old(day) == Some(DayOf(Stamped(when, e, now).at)))
    {
      hide ByDay, Appended, Ended, DayOf;
      var event := Stamped(when, e, now);
      var d := DayOf(event.at);
      ghost var before, torn := files, open;
      var ok := Roll(event.at, canOpen, removable);
      if !ok {
        EndedIsAPrefix(before, files, torn, open, d);
        return Err(CannotOpen);
      }
      var line := if written.PartOfIt? then Torn else Good(event);
      if !written.NothingWritten? {
        AppendingKeepsEnded(files[d], d in open, line, !written.Whole?);
        Append(d, line, written.Whole?);
      }
      EndedIsAPrefix(before, files, torn, open, d);
      r := if written.Whole? then Ok(event) else Err(CannotWrite);
    }

    /** The names of the day files, newest first. */
    method Days() returns (days: seq<int>)
      ensures Listing(days, files) && NewestDayFirst(days)
    {
      days := [];
      var names := files.Keys;
      while names != {}
        invariant names <= files.Keys && forall d | d in files :: d in names || d in days
        invariant All(days, files) && NewestDayFirst(days)
        invariant forall i, d | 0 <= i < |days| && d in names :: days[i] > d
        decreases names
      {
        MaximumExists(names);
        var d :| d in names && forall x | x in names :: x <= d;
        days := days + [d];
        names := names - {d};
      }
    }

    /**
     Newest day first, stopping at the day before `since` and as soon as the limit is reached.
     The answer is what reading every file, in any order, would give.
     */
    method Ask(q: Query, readable: int -> bool) returns (r: Result<seq<Event>, int>)
      requires Valid()
      ensures r.Ok? ==> forall days | Listing(days, files) :: r.value == Answer(files, days, q)
      ensures r.Err? ==> r.error in files && !readable(r.error)
    {
      hide Everything, Kept, NewestFirst, ByDay, NewestDayFirst, NoDup;
      var days := Days();
      var out: seq<Event> := [];
      var i := 0;
      EverythingStarts(files, days, q);
      while i < |days|
        invariant 0 <= i <= |days| && All(days[..i], files) && out == Everything(files, days[..i], q)
      {
        if q.since.Some? && days[i] < DayOf(q.since.value) {
          BeforeSinceIsNothing(files, days, i, q);
          break;
        }
        if !readable(days[i]) { return Err(days[i]); }
        EverythingGrows(files, days, i, q);
        out := out + Kept(files[days[i]], q);
        i := i + 1;
        if |out| >= Limit(q) {
          EnoughIsEnough(files, days, i, q);
          break;
        }
      }
      assert days[..|days|] == days;
      AnyOrderWillDo(files, days, q);
      r := Ok(Take(Limit(q), NewestFirst(out)));
    }
  }

  lemma EverythingStarts(files: Files, days: seq<int>, q: Query)
    requires All(days, files)
    ensures All(days[..0], files) && Everything(files, days[..0], q) == []
  {
  }

  lemma EverythingGrows(files: Files, days: seq<int>, i: nat, q: Query)
    requires All(days, files) && i < |days| && All(days[..i], files)
    ensures All(days[..i + 1], files)
    ensures Everything(files, days[..i + 1], q) == Everything(files, days[..i], q) + Kept(files[days[i]], q)
  {
    EverythingJoined(files, days[..i], [days[i]], q);
    assert days[..i + 1] == days[..i] + [days[i]];
    assert Everything(files, [days[i]], q) == Kept(files[days[i]], q) + [];
  }

  lemma AnyOrderWillDo(files: Files, days: seq<int>, q: Query)
    requires Listing(days, files) && ByDay(files)
    ensures forall other | Listing(other, files) :: Answer(files, days, q) == Answer(files, other, q)
  {
    forall other | Listing(other, files) ensures Answer(files, days, q) == Answer(files, other, q) {
      ReadingOrderDoesNotMatter(files, days, other, q);
    }
  }

  lemma {:induction false} MaximumExists(s: set<int>)
    requires s != {}
    ensures exists d :: d in s && forall x | x in s :: x <= d
  {
    HasMember(s);
    var e :| e in s;
    var rest := s - {e};
    assert forall x | x in s :: x == e || x in rest;
    if rest != {} {
      MaximumExists(rest);
      var d :| d in rest && forall x | x in rest :: x <= d;
      var m := if d > e then d else e;
      assert m in s && forall x | x in s :: x <= m;
    }
  }
}
