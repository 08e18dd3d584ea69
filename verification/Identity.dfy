/**
 The binding of directory identities to accounts (internal/identity/identity.go) and
 the sign-in decision over it (resolveIdentity in internal/server/sso.go).
 */
module Identity {
  import opened Common

  // ------------------------------------------------------ names and addresses

  predicate IsLower(c: char) { 'a' <= c <= 'z' }

  predicate IsDigit(c: char) { '0' <= c <= '9' }

  /** The account-name pattern: a letter or underscore, then up to 31 of a wider set. */
  predicate ValidName(s: string) {
    && 1 <= |s| <= 32
    && (IsLower(s[0]) || s[0] == '_')
    && forall i | 1 <= i < |s| :: IsLower(s[i]) || IsDigit(s[i]) || s[i] in "_.-"
  }

  predicate IsSpace(c: char) { c in " \t\n\r" }

  function LowerChar(c: char): char {
    if 'A' <= c <= 'Z' then c - 'A' + 'a' else c
  }

  function Lower(s: string): (r: string)
    ensures |r| == |s| && forall i | 0 <= i < |s| :: r[i] == LowerChar(s[i])
  {
    seq(|s|, i requires 0 <= i < |s| => LowerChar(s[i]))
  }

  function TrimLeft(s: string): string {
    if s != [] && IsSpace(s[0]) then TrimLeft(s[1..]) else s
  }

  function TrimRight(s: string): string {
    if s != [] && IsSpace(s[|s| - 1]) then TrimRight(s[..|s| - 1]) else s
  }

  function NormalizeEmail(s: string): string { Lower(TrimRight(TrimLeft(s))) }

  lemma {:induction false} TrimLeftMeans(s: string)
    ensures var t := TrimLeft(s);
            && |t| <= |s| && s[|s| - |t|..] == t && (forall i | 0 <= i < |s| - |t| :: IsSpace(s[i])) && (t != [] ==> !IsSpace(t[0]))
  {
    if s != [] && IsSpace(s[0]) {
      TrimLeftMeans(s[1..]);
      var n := |s| - |TrimLeft(s)|;
      assert forall i | 0 < i < n :: s[i] == s[1..][i - 1];
    }
  }

  lemma {:induction false} TrimRightMeans(s: string)
    ensures var t := TrimRight(s);
            && |t| <= |s| && s[..|t|] == t && (forall i | |t| <= i < |s| :: IsSpace(s[i])) && (t != [] ==> !IsSpace(t[|t| - 1]))
  {
    if s != [] && IsSpace(s[|s| - 1]) {
      TrimRightMeans(s[..|s| - 1]);
    }
  }

  /** A folded address is the given one without the space around it, letter by letter in lower case. */
  lemma NormalizeMeans(s: string) returns (i: nat, j: nat)
    ensures i <= j <= |s| && |NormalizeEmail(s)| == j - i
    ensures forall k | 0 <= k < j - i ::
              NormalizeEmail(s)[k] == if 'A' <= s[i + k] <= 'Z' then s[i + k] - 'A' + 'a' else s[i + k]
    ensures (forall k | 0 <= k < i || j <= k < |s| :: IsSpace(s[k])) && (i < j ==> !IsSpace(s[i]) && !IsSpace(s[j - 1]))
  {
    hide TrimLeft, TrimRight, IsSpace;
    var l := TrimLeft(s);
    var r := TrimRight(l);
    TrimLeftMeans(s);
    TrimRightMeans(l);
    i, j := |s| - |l|, |s| - |l| + |r|;
    assert forall k | 0 <= k < |l| :: l[k] == s[i + k];
    assert forall k | 0 <= k < |r| :: r[k] == l[k];
    forall k | j <= k < |s| ensures IsSpace(s[k]) {
      assert s[k] == l[k - i];
    }
  }

  /** One '@' with something on each side, a dot in the domain, nothing unprintable. */
  predicate ValidEmail(s: string) {
    && 0 < |s| <= 254
    && (exists at | 0 < at < |s| - 1 ::
          && s[at] == '@' && (forall i | 0 <= i < |s| && i != at :: s[i] != '@')
          && exists dot | at < dot < |s| :: s[dot] == '.')
    && forall i | 0 <= i < |s| :: s[i] > ' ' && s[i] != 0x7f as char
  }

  /** An address as the store keeps it: folded and usable. */
  predicate Address(e: string) { NormalizeEmail(e) == e && ValidEmail(e) }

  lemma TrimIdle(s: string)
    requires forall i | 0 <= i < |s| :: s[i] > ' '
    ensures TrimLeft(s) == s && TrimRight(s) == s
  {
  }

  lemma NormalizeIsIdempotent(s: string)
    requires ValidEmail(NormalizeEmail(s))
    ensures Address(NormalizeEmail(s))
  {
    var t := NormalizeEmail(s);
    TrimIdle(t);
    assert forall c: char :: LowerChar(LowerChar(c)) == LowerChar(c);
    assert Lower(t) == t;
  }

  /** Identifies a directory object: the issuer, a NUL, the subject. */
  function SubjectKey(issuer: string, subject: string): string { issuer + ['\0'] + subject }

  lemma SubjectKeyIsInjective(i: string, s: string, j: string, t: string)
    requires '\0' !in i && '\0' !in j && SubjectKey(i, s) == SubjectKey(j, t)
    ensures i == j && s == t
  {
    var k, l := SubjectKey(i, s), SubjectKey(j, t);
    assert k[|i|] == '\0' && l[|j|] == '\0';
    assert forall x | 0 <= x < |i| :: k[x] == i[x];
    assert forall x | 0 <= x < |j| :: l[x] == j[x];
    assert k[..|i|] == i && l[..|j|] == j && k[|i| + 1..] == s && l[|j| + 1..] == t;
  }

  // ----------------------------------------------------------------- the book

  datatype Mapping = Mapping(account: string, emails: seq<string>, issuer: string, subject: string,
                             approvedBy: string, approvedAt: int, updatedAt: int)

  datatype Book = Book(byAccount: map<string, Mapping>, byEmail: map<string, string>, bySubject: map<string, string>)

  const EMPTY := Book(map[], map[], map[])

  datatype IdError = NoMapping | Taken | SubjectPinned | BadAccount | BadAddress | EmptySubject | Twice | StoreFailed

  datatype Change = Change(book: Book, changed: bool)

  function Key(m: Mapping): string { SubjectKey(m.issuer, m.subject) }

  /** byEmail and bySubject are exactly the indexes of byAccount, so nothing is shared between accounts. */
  ghost predicate Indexed(b: Book) {
    && (forall a | a in b.byAccount :: MappingOk(b, a))
    && (forall e | e in b.byEmail :: b.byEmail[e] in b.byAccount && e in b.byAccount[b.byEmail[e]].emails)
    && (forall k | k in b.bySubject ::
          b.bySubject[k] in b.byAccount
          && b.byAccount[b.bySubject[k]].subject != "" && Key(b.byAccount[b.bySubject[k]]) == k)
  }

  ghost predicate MappingOk(b: Book, a: string)
    requires a in b.byAccount
  {
    var m := b.byAccount[a];
    && m.account == a && ValidName(a) && NoDup(m.emails)
    && (forall e | e in m.emails :: Address(e) && e in b.byEmail && b.byEmail[e] == a)
    && (m.subject != "" ==> Key(m) in b.bySubject && b.bySubject[Key(m)] == a)
  }

  // ---------------------------------------------------------------- sorting

  function Codes(s: string): seq<int> { seq(|s|, i requires 0 <= i < |s| => s[i] as int) }

  function Insert(e: string, q: seq<string>): (r: seq<string>)
    ensures multiset(r) == multiset(q) + multiset{e}
  {
    if q == [] then [e]
    else if Less(Codes(q[0]), Codes(e)) then
      assert q == [q[0]] + q[1..];
      [q[0]] + Insert(e, q[1..])
    else [e] + q
  }

  function Sorted(q: seq<string>): (r: seq<string>)
    ensures multiset(r) == multiset(q)
  {
    if q == [] then []
    else
      assert q == [q[0]] + q[1..];
      Insert(q[0], Sorted(q[1..]))
  }

  predicate NotAfter(a: string, b: string) { !Less(Codes(b), Codes(a)) }

  ghost predicate Ascends(q: seq<string>) { forall i, j | 0 <= i < j < |q| :: NotAfter(q[i], q[j]) }

  lemma NotAfterIsTransitive(a: string, b: string, c: string)
    requires NotAfter(a, b) && NotAfter(b, c)
    ensures NotAfter(a, c)
  {
    LessIsTotal(Codes(a), Codes(b));
    if Less(Codes(c), Codes(a)) && Less(Codes(a), Codes(b)) {
      LessIsTransitive(Codes(c), Codes(a), Codes(b));
    }
  }

  lemma {:induction false} InsertAscends(e: string, q: seq<string>)
    requires Ascends(q)
    ensures Ascends(Insert(e, q))
  {
    hide NotAfter;
    var r := Insert(e, q);
    if q == [] {
    } else if Less(Codes(q[0]), Codes(e)) {
      var tail := Insert(e, q[1..]);
      assert forall i | 0 <= i < |q[1..]| :: q[1..][i] == q[i + 1];
      InsertAscends(e, q[1..]);
      LessIsNotAfter(q[0], e);
      assert multiset(tail) == multiset(q[1..]) + multiset{e};
      forall j | 0 <= j < |tail| ensures NotAfter(q[0], tail[j]) {
        assert tail[j] in multiset(tail);
        assert tail[j] == e || tail[j] in q[1..];
      }
      assert r == [q[0]] + tail;
    } else {
      NotLessIsNotAfter(e, q[0]);
      forall j | 0 <= j < |q| ensures NotAfter(e, q[j]) {
        if j > 0 {
          NotAfterIsTransitive(e, q[0], q[j]);
        }
      }
      assert r == [e] + q;
    }
  }

  lemma LessIsNotAfter(a: string, b: string)
    requires Less(Codes(a), Codes(b))
    ensures NotAfter(a, b)
  {
    LessIsTotal(Codes(a), Codes(b));
  }

  lemma NotLessIsNotAfter(a: string, b: string)
    requires !Less(Codes(b), Codes(a))
    ensures NotAfter(a, b)
  {
  }

  /** The addresses of a record are kept in order. */
  lemma {:induction false} SortedAscends(q: seq<string>)
    ensures Ascends(Sorted(q))
  {
    if q != [] {
      SortedAscends(q[1..]);
      InsertAscends(q[0], Sorted(q[1..]));
    }
  }

  lemma {:induction false} NoDupCounts(q: seq<string>)
    ensures NoDup(q) <==> forall e | e in q :: multiset(q)[e] == 1
  {
    if q != [] {
      var t := q[1..];
      assert q == [q[0]] + t;
      NoDupCounts(t);
      assert forall i | 0 <= i < |t| :: t[i] == q[i + 1];
      if NoDup(q) {
        assert q[0] !in t && NoDup(t);
        assert multiset(t)[q[0]] == 0;
      } else if forall e | e in q :: multiset(q)[e] == 1 {
        assert multiset(q)[q[0]] == 1;
        assert q[0] !in t;
        forall e | e in t ensures multiset(t)[e] == 1 {
          assert e in q;
        }
      }
    }
  }

  lemma SortedKeeps(q: seq<string>)
    ensures forall e :: e in Sorted(q) <==> e in q
    ensures NoDup(q) ==> NoDup(Sorted(q))
  {
    assert forall e :: e in q <==> e in multiset(q);
    assert forall e :: e in Sorted(q) <==> e in multiset(Sorted(q));
    NoDupCounts(q);
    NoDupCounts(Sorted(q));
  }

  // -------------------------------------------------------------- the mutations

  /** Trust on first use: the first subject to sign in stays the only one. */
  function Pinned(b: Book, account: string, issuer: string, subject: string, now: int): Result<Change, IdError> {
    if subject == "" then Err(EmptySubject)
    else if account !in b.byAccount then Err(NoMapping)
    else
      var m := b.byAccount[account];
      var k := SubjectKey(issuer, subject);
      if m.subject != "" then
        if m.subject == subject && m.issuer == issuer then Ok(Change(b, false)) else Err(SubjectPinned)
      else if k in b.bySubject then Err(Taken)
      else Ok(Change(b.(byAccount := b.byAccount[account := m.(issuer := issuer, subject := subject, updatedAt := now)],
                        bySubject := b.bySubject[k := account]), true))
  }

  function Attached(b: Book, account: string, email: string, now: int): Result<Change, IdError> {
    var e := NormalizeEmail(email);
    if !ValidEmail(e) then Err(BadAddress)
    else if account !in b.byAccount then Err(NoMapping)
    else if e in b.byEmail then
      if b.byEmail[e] == account then Ok(Change(b, false)) else Err(Taken)
    else
      var m := b.byAccount[account];
      Ok(Change(b.(byAccount := b.byAccount[account := m.(emails := Sorted(m.emails + [e]), updatedAt := now)],
                   byEmail := b.byEmail[e := account]), true))
  }

  function Clean(emails: seq<string>): Result<seq<string>, IdError> {
    if emails == [] then Ok([])
    else
      var e := NormalizeEmail(emails[|emails| - 1]);
      var rest := Clean(emails[..|emails| - 1]);
      if rest.Err? then rest
      else if !ValidEmail(e) then Err(BadAddress)
      else Ok(rest.value + [e])
  }

  /** The loop of Approve: addresses nobody has yet join the account's list. */
  function Adopt(list: seq<string>, byEmail: map<string, string>, clean: seq<string>, account: string)
    : (seq<string>, map<string, string>)
  {
    if clean == [] then (list, byEmail)
    else
      var (l, x) := Adopt(list, byEmail, clean[..|clean| - 1], account);
      var e := clean[|clean| - 1];
      if e in x then (l, x) else (l + [e], x[e := account])
  }

  predicate AnotherHas(b: Book, clean: seq<string>, account: string) {
    exists e | e in clean :: e in b.byEmail && b.byEmail[e] != account
  }

  function Approved(b: Book, account: string, issuer: string, subject: string, emails: seq<string>, who: string, now: int)
    : Result<Change, IdError>
  {
    var c := Clean(emails);
    if !ValidName(account) then Err(BadAccount)
    else if c.Err? then Err(c.error)
    else if AnotherHas(b, c.value, account) then Err(Taken)
    else
      var k := SubjectKey(issuer, subject);
      if subject != "" && k in b.bySubject && b.bySubject[k] != account then Err(Taken)
      else
        var m := if account in b.byAccount then b.byAccount[account] else Mapping(account, [], "", "", who, now, 0);
        if subject != "" && m.subject != "" && (m.subject != subject || m.issuer != issuer) then Err(SubjectPinned)
        else
          var m1 := if subject != "" then m.(issuer := issuer, subject := subject) else m;
          var (list, byEmail) := Adopt(m.emails, b.byEmail, c.value, account);
          var m2 := m1.(emails := Sorted(list), updatedAt := now,
                        approvedBy := if m.approvedBy == "" then who else m.approvedBy,
                        approvedAt := if m.approvedBy == "" then now else m.approvedAt);
          Ok(Change(Book(b.byAccount[account := m2], byEmail,
                         if subject != "" then b.bySubject[k := account] else b.bySubject), true))
  }

  function Forgotten(b: Book, account: string): Result<Change, IdError> {
    if account !in b.byAccount then Err(NoMapping)
    else
      var m := b.byAccount[account];
      Ok(Change(Book(b.byAccount - {account}, b.byEmail - (set e | e in m.emails),
                     if m.subject != "" then b.bySubject - {Key(m)} else b.bySubject), true))
  }

  function Drop(q: seq<string>, e: string): (r: seq<string>)
    ensures forall x :: x in r <==> x in q && x != e
    ensures e !in q ==> r == q
  {
    if q == [] then []
    else if q[|q| - 1] == e then Drop(q[..|q| - 1], e)
    else Drop(q[..|q| - 1], e) + [q[|q| - 1]]
  }

  function Detached(b: Book, account: string, email: string, now: int): Result<Change, IdError> {
    var e := NormalizeEmail(email);
    if account !in b.byAccount then Err(NoMapping)
    else
      var m := b.byAccount[account];
      if e !in m.emails then Err(NoMapping)
      else Ok(Change(b.(byAccount := b.byAccount[account := m.(emails := Drop(m.emails, e), updatedAt := now)],
                        byEmail := b.byEmail - {e}), true))
  }

  datatype Op =
    | Pin(account: string, issuer: string, subject: string)
    | Attach(account: string, email: string)
    | Approve(account: string, issuer: string, subject: string, emails: seq<string>, who: string)
    | Forget(account: string)
    | Detach(account: string, email: string)

  function Do(b: Book, o: Op, now: int): Result<Change, IdError> {
    match o
    case Pin(a, i, s) => Pinned(b, a, i, s, now)
    case Attach(a, e) => Attached(b, a, e, now)
    case Approve(a, i, s, es, who) => Approved(b, a, i, s, es, who, now)
    case Forget(a) => Forgotten(b, a)
    case Detach(a, e) => Detached(b, a, e, now)
  }

  /** A refused operation changes nothing. */
  function Step(b: Book, o: Op, now: int): Book {
    var r := Do(b, o, now);
    if r.Ok? then r.value.book else b
  }

  // ---------------------------------------------------- the indexes stay exact

  lemma {:induction false} CleanGivesAddresses(emails: seq<string>)
    ensures Clean(emails).Ok? ==> forall e | e in Clean(emails).value :: Address(e)
    ensures Clean(emails).Err? ==> Clean(emails).error == BadAddress
    ensures Clean(emails).Ok? <==> forall i | 0 <= i < |emails| :: ValidEmail(NormalizeEmail(emails[i]))
  {
    hide NormalizeEmail, ValidEmail, Address;
    if emails != [] {
      CleanGivesAddresses(emails[..|emails| - 1]);
      var last := emails[|emails| - 1];
      if ValidEmail(NormalizeEmail(last)) {
        NormalizeIsIdempotent(last);
      }
    }
  }

  lemma AdoptNothing(list: seq<string>, byEmail: map<string, string>, clean: seq<string>, account: string)
    ensures Adopt(list, byEmail, clean[..0], account) == (list, byEmail)
  {
  }

  lemma {:induction false} AdoptNext(list: seq<string>, byEmail: map<string, string>, clean: seq<string>, i: nat, account: string)
    requires i < |clean|
    ensures var (l, x) := Adopt(list, byEmail, clean[..i], account);
            Adopt(list, byEmail, clean[..i + 1], account)
            == if clean[i] in x then (l, x) else (l + [clean[i]], x[clean[i] := account])
  {
    assert clean[..i + 1][..i] == clean[..i];
  }

  lemma {:induction false} AdoptKeeps(list: seq<string>, byEmail: map<string, string>, clean: seq<string>, account: string)
    requires NoDup(list) && forall e | e in list :: e in byEmail && byEmail[e] == account
    requires forall e | e in byEmail && byEmail[e] == account :: e in list
    ensures var (l, x) := Adopt(list, byEmail, clean, account);
            && NoDup(l)
            && (forall e :: e in l <==> e in list || (e in clean && e !in byEmail))
            && (forall e :: e in x <==> e in byEmail || e in clean)
            && (forall e | e in byEmail :: x[e] == byEmail[e])
            && (forall e | e in x && e !in byEmail :: x[e] == account)
  {
    if clean != [] {
      var front := clean[..|clean| - 1];
      assert clean == front + [clean[|clean| - 1]];
      AdoptKeeps(list, byEmail, front, account);
    }
  }

  function ListOf(b: Book, a: string): seq<string> { if a in b.byAccount then b.byAccount[a].emails else [] }

  /** Only a's record changes, and the address index gains only addresses a has and nobody had. */
  ghost predicate ExtendsEmails(b: Book, c: Book, a: string) {
    && a in c.byAccount && c.byAccount == b.byAccount[a := c.byAccount[a]]
    && (forall e | e in b.byEmail :: e in c.byEmail && c.byEmail[e] == b.byEmail[e])
    && (forall e | e in c.byEmail && e !in b.byEmail :: c.byEmail[e] == a && e in c.byAccount[a].emails)
    && (forall e | e in ListOf(b, a) :: e in c.byAccount[a].emails)
  }

  /** The subject index gains at most a's own subject. */
  ghost predicate ExtendsSubjects(b: Book, c: Book, a: string) {
    && a in c.byAccount
    && (forall k | k in b.bySubject :: k in c.bySubject && c.bySubject[k] == b.bySubject[k])
    && (forall k | k in c.bySubject && k !in b.bySubject :: c.bySubject[k] == a)
    && (forall k | k in c.bySubject && c.bySubject[k] == a :: c.byAccount[a].subject != "" && Key(c.byAccount[a]) == k)
  }

  lemma OthersStayOk(b: Book, c: Book, a: string, x: string)
    requires Indexed(b) && ExtendsEmails(b, c, a) && ExtendsSubjects(b, c, a) && x in c.byAccount && x != a
    ensures MappingOk(c, x)
  {
    hide NormalizeEmail, ValidEmail, ValidName, Key, Address;
    assert MappingOk(b, x);
  }

  lemma ExtendedEmailsAreOwned(b: Book, c: Book, a: string, e: string)
    requires Indexed(b) && ExtendsEmails(b, c, a) && e in c.byEmail
    ensures c.byEmail[e] in c.byAccount && e in c.byAccount[c.byEmail[e]].emails
  {
    hide MappingOk, Key;
  }

  lemma ExtendedSubjectsAreOwned(b: Book, c: Book, a: string, k: string)
    requires Indexed(b) && ExtendsEmails(b, c, a) && ExtendsSubjects(b, c, a) && k in c.bySubject
    ensures var x := c.bySubject[k]; x in c.byAccount && c.byAccount[x].subject != "" && Key(c.byAccount[x]) == k
  {
    hide MappingOk, Key;
  }

  lemma ExtendsKeeps(b: Book, c: Book, a: string)
    requires Indexed(b) && ExtendsEmails(b, c, a) && ExtendsSubjects(b, c, a) && MappingOk(c, a)
    ensures Indexed(c)
  {
    hide MappingOk, ExtendsEmails, ExtendsSubjects, Key;
    forall x | x in c.byAccount ensures MappingOk(c, x) {
      if x != a {
        OthersStayOk(b, c, a, x);
      }
    }
    forall e | e in c.byEmail ensures c.byEmail[e] in c.byAccount && e in c.byAccount[c.byEmail[e]].emails {
      ExtendedEmailsAreOwned(b, c, a, e);
    }
    forall k | k in c.bySubject
      ensures c.bySubject[k] in c.byAccount
              && c.byAccount[c.bySubject[k]].subject != "" && Key(c.byAccount[c.bySubject[k]]) == k
    {
      ExtendedSubjectsAreOwned(b, c, a, k);
    }
  }

  /** The account's record after addresses nobody had joined its list. */
  lemma GrownMappingOk(c: Book, a: string, list: seq<string>)
    requires a in c.byAccount && c.byAccount[a].account == a && ValidName(a) && NoDup(list)
    requires c.byAccount[a].emails == Sorted(list)
    requires forall e | e in list :: Address(e) && e in c.byEmail && c.byEmail[e] == a
    requires c.byAccount[a].subject != "" ==> Key(c.byAccount[a]) in c.bySubject && c.bySubject[Key(c.byAccount[a])] == a
    ensures MappingOk(c, a)
  {
    SortedKeeps(list);
  }

  lemma PinMappingOk(b: Book, a: string, i: string, s: string, now: int)
    requires Indexed(b) && Pinned(b, a, i, s, now).Ok?
    ensures var c := Pinned(b, a, i, s, now).value.book;
            a in c.byAccount && MappingOk(c, a)
  {
    hide NormalizeEmail, ValidEmail, ValidName, SubjectKey, Address;
    assert MappingOk(b, a);
  }

  lemma PinExtends(b: Book, a: string, i: string, s: string, now: int)
    requires Indexed(b) && Pinned(b, a, i, s, now).Ok?
    ensures var c := Pinned(b, a, i, s, now).value.book;
            ExtendsEmails(b, c, a) && ExtendsSubjects(b, c, a)
  {
    hide MappingOk, SubjectKey;
  }

  lemma PinKeeps(b: Book, a: string, i: string, s: string, now: int)
    requires Indexed(b) && Pinned(b, a, i, s, now).Ok?
    ensures Indexed(Pinned(b, a, i, s, now).value.book)
  {
    PinMappingOk(b, a, i, s, now);
    PinExtends(b, a, i, s, now);
    hide Pinned, Indexed, MappingOk, ExtendsEmails, ExtendsSubjects;
    ExtendsKeeps(b, Pinned(b, a, i, s, now).value.book, a);
  }

  lemma AttachMappingOk(b: Book, a: string, email: string, now: int)
    requires Indexed(b) && Attached(b, a, email, now).Ok?
    ensures var c := Attached(b, a, email, now).value.book;
            a in c.byAccount && MappingOk(c, a)
  {
    var c := Attached(b, a, email, now).value.book;
    assert MappingOk(b, a);
    if c != b {
      NormalizeIsIdempotent(email);
      assert NormalizeEmail(email) !in b.byAccount[a].emails;
      GrownMappingOk(c, a, b.byAccount[a].emails + [NormalizeEmail(email)]);
    }
  }

  lemma AttachExtends(b: Book, a: string, email: string, now: int)
    requires Indexed(b) && Attached(b, a, email, now).Ok?
    ensures ExtendsEmails(b, Attached(b, a, email, now).value.book, a)
    ensures ExtendsSubjects(b, Attached(b, a, email, now).value.book, a)
  {
    hide NormalizeEmail, ValidEmail, SubjectKey, Sorted, MappingOk;
    SortedKeeps(b.byAccount[a].emails + [NormalizeEmail(email)]);
  }

  lemma AttachKeeps(b: Book, a: string, email: string, now: int)
    requires Indexed(b) && Attached(b, a, email, now).Ok?
    ensures Indexed(Attached(b, a, email, now).value.book)
  {
    AttachMappingOk(b, a, email, now);
    AttachExtends(b, a, email, now);
    ExtendsKeeps(b, Attached(b, a, email, now).value.book, a);
  }

  lemma {:induction false} AdoptInBook(b: Book, a: string, clean: seq<string>)
    requires Indexed(b)
    ensures var (l, x) := Adopt(ListOf(b, a), b.byEmail, clean, a);
            && NoDup(l)
            && (forall e :: e in l <==> e in ListOf(b, a) || (e in clean && e !in b.byEmail))
            && (forall e :: e in x <==> e in b.byEmail || e in clean)
            && (forall e | e in b.byEmail :: x[e] == b.byEmail[e])
            && (forall e | e in x && e !in b.byEmail :: x[e] == a)
  {
    if a in b.byAccount {
      assert MappingOk(b, a);
    }
    AdoptKeeps(ListOf(b, a), b.byEmail, clean, a);
  }

  lemma ApproveMappingOk(b: Book, a: string, i: string, s: string, emails: seq<string>, who: string, now: int)
    requires Indexed(b) && Approved(b, a, i, s, emails, who, now).Ok?
    ensures var c := Approved(b, a, i, s, emails, who, now).value.book;
            a in c.byAccount && MappingOk(c, a)
  {
    var c := Approved(b, a, i, s, emails, who, now).value.book;
    var clean := Clean(emails).value;
    var list := Adopt(ListOf(b, a), b.byEmail, clean, a).0;
    if a in b.byAccount {
      assert MappingOk(b, a);
    }
    CleanGivesAddresses(emails);
    AdoptInBook(b, a, clean);
    assert c.byAccount[a].emails == Sorted(list);
    forall e | e in list ensures Address(e) && e in c.byEmail && c.byEmail[e] == a {
    }
    GrownMappingOk(c, a, list);
  }

  lemma ApproveExtendsEmails(b: Book, a: string, i: string, s: string, emails: seq<string>, who: string, now: int)
    requires Indexed(b) && Approved(b, a, i, s, emails, who, now).Ok?
    ensures ExtendsEmails(b, Approved(b, a, i, s, emails, who, now).value.book, a)
  {
    var clean := Clean(emails).value;
    AdoptInBook(b, a, clean);
    SortedKeeps(Adopt(ListOf(b, a), b.byEmail, clean, a).0);
  }

  lemma ApproveExtendsSubjects(b: Book, a: string, i: string, s: string, emails: seq<string>, who: string, now: int)
    requires Indexed(b) && Approved(b, a, i, s, emails, who, now).Ok?
    ensures ExtendsSubjects(b, Approved(b, a, i, s, emails, who, now).value.book, a)
  {
  }

  lemma ApproveKeeps(b: Book, a: string, i: string, s: string, emails: seq<string>, who: string, now: int)
    requires Indexed(b) && Approved(b, a, i, s, emails, who, now).Ok?
    ensures Indexed(Approved(b, a, i, s, emails, who, now).value.book)
  {
    ApproveMappingOk(b, a, i, s, emails, who, now);
    ApproveExtendsEmails(b, a, i, s, emails, who, now);
    ApproveExtendsSubjects(b, a, i, s, emails, who, now);
    ExtendsKeeps(b, Approved(b, a, i, s, emails, who, now).value.book, a);
  }

  lemma ForgetKeeps(b: Book, a: string)
    requires Indexed(b) && Forgotten(b, a).Ok?
    ensures Indexed(Forgotten(b, a).value.book)
  {
    hide NormalizeEmail, ValidEmail, ValidName, SubjectKey, Address;
    var c := Forgotten(b, a).value.book;
    assert MappingOk(b, a);
    forall x | x in c.byAccount ensures MappingOk(c, x) {
      assert MappingOk(b, x);
    }
  }

  lemma {:induction false} DropKeepsOrder(q: seq<string>, e: string)
    requires NoDup(q)
    ensures NoDup(Drop(q, e))
  {
    if q != [] {
      DropKeepsOrder(q[..|q| - 1], e);
      assert forall i | 0 <= i < |q| - 1 :: q[i] != q[|q| - 1];
      assert q[|q| - 1] !in q[..|q| - 1];
    }
  }

  lemma DetachedMappingOk(b: Book, a: string, email: string, now: int, x: string)
    requires Indexed(b) && Detached(b, a, email, now).Ok? && x in b.byAccount
    ensures var c := Detached(b, a, email, now).value.book; x in c.byAccount && MappingOk(c, x)
  {
    hide NormalizeEmail, ValidName, Address, SubjectKey;
    assert MappingOk(b, x) && MappingOk(b, a);
    DropKeepsOrder(b.byAccount[a].emails, NormalizeEmail(email));
  }

  lemma DropNothing(e: string)
    ensures Drop([], e) == []
  {
  }

  lemma DropNext(q: seq<string>, i: nat, e: string)
    requires i < |q|
    ensures Drop(q[..i + 1], e) == if q[i] == e then Drop(q[..i], e) else Drop(q[..i], e) + [q[i]]
    ensures e in q[..i + 1] <==> e in q[..i] || q[i] == e
  {
    assert q[..i + 1][..i] == q[..i];
  }

  lemma DetachKeeps(b: Book, a: string, email: string, now: int)
    requires Indexed(b) && Detached(b, a, email, now).Ok?
    ensures Indexed(Detached(b, a, email, now).value.book)
  {
    hide NormalizeEmail, ValidName, Address, Key;
    var c := Detached(b, a, email, now).value.book;
    assert MappingOk(b, a);
    forall x | x in c.byAccount ensures MappingOk(c, x) {
      DetachedMappingOk(b, a, email, now, x);
    }
    hide MappingOk;
  }

  /** Every operation keeps the indexes exact. */
  lemma StepKeepsIndexed(b: Book, o: Op, now: int)
    requires Indexed(b)
    ensures Indexed(Step(b, o, now))
  {
    if Do(b, o, now).Ok? {
      match o
      case Pin(a, i, s) => PinKeeps(b, a, i, s, now);
      case Attach(a, e) => AttachKeeps(b, a, e, now);
      case Approve(a, i, s, es, who) => ApproveKeeps(b, a, i, s, es, who, now);
      case Forget(a) => ForgetKeeps(b, a);
      case Detach(a, e) => DetachKeeps(b, a, e, now);
    }
  }

  // ------------------------------------------------------ loading and saving

  function LoadEmails(x: map<string, string>, emails: seq<string>, account: string)
    : (map<string, string>, seq<string>, Option<IdError>)
  {
    if emails == [] then (x, [], None)
    else
      var (x1, l1, err) := LoadEmails(x, emails[..|emails| - 1], account);
      var e := NormalizeEmail(emails[|emails| - 1]);
      if err.Some? then (x1, l1, err)
      else if !ValidEmail(e) then (x1, l1, Some(BadAddress))
      else if e in x1 then (x1, l1, Some(Taken))
      else (x1[e := account], l1 + [e], None)
  }

  /** Adds one record of the file, or stops half-way through it. */
  function LoadOne(b: Book, m: Mapping): (Book, Option<IdError>) {
    if !ValidName(m.account) then (b, Some(BadAccount))
    else if m.account in b.byAccount then (b, Some(Twice))
    else
      var (x, list, err) := LoadEmails(b.byEmail, m.emails, m.account);
      if err.Some? then (b.(byEmail := x), err)
      else if m.subject != "" && Key(m) in b.bySubject then (b.(byEmail := x), Some(Taken))
      else (Book(b.byAccount[m.account := m.(emails := list)], x,
                 if m.subject != "" then b.bySubject[Key(m) := m.account] else b.bySubject), None)
  }

  /** The store after loading a parsed file: it starts from nothing, also when the file is refused. */
  function Loaded(list: seq<Mapping>): (Book, Option<IdError>) {
    if list == [] then (EMPTY, None)
    else
      var (b, err) := Loaded(list[..|list| - 1]);
      if err.Some? then (b, err) else LoadOne(b, list[|list| - 1])
  }

  lemma {:induction false} LoadEmailsKeeps(x: map<string, string>, emails: seq<string>, account: string)
    requires LoadEmails(x, emails, account).2.None?
    ensures var (x1, list, _) := LoadEmails(x, emails, account);
            && NoDup(list) && (forall e | e in list :: Address(e) && e !in x)
            && (forall e :: e in x1 <==> e in x || e in list)
            && (forall e | e in x :: x1[e] == x[e]) && (forall e | e in list :: x1[e] == account)
  {
    if emails != [] {
      LoadEmailsKeeps(x, emails[..|emails| - 1], account);
      NormalizeIsIdempotent(emails[|emails| - 1]);
    }
  }

  lemma LoadOneMappingOk(b: Book, m: Mapping)
    requires LoadOne(b, m).1.None?
    ensures m.account in LoadOne(b, m).0.byAccount && MappingOk(LoadOne(b, m).0, m.account)
  {
    hide NormalizeEmail, ValidEmail, ValidName, SubjectKey, Address, LoadEmails;
    LoadEmailsKeeps(b.byEmail, m.emails, m.account);
  }

  lemma LoadOneExtends(b: Book, m: Mapping)
    requires Indexed(b) && LoadOne(b, m).1.None?
    ensures ExtendsEmails(b, LoadOne(b, m).0, m.account) && ExtendsSubjects(b, LoadOne(b, m).0, m.account)
  {
    hide NormalizeEmail, ValidEmail, ValidName, SubjectKey, Address, LoadEmails, MappingOk;
    LoadEmailsKeeps(b.byEmail, m.emails, m.account);
  }

  lemma LoadOneKeeps(b: Book, m: Mapping)
    requires Indexed(b) && LoadOne(b, m).1.None?
    ensures Indexed(LoadOne(b, m).0)
  {
    LoadOneMappingOk(b, m);
    LoadOneExtends(b, m);
    hide *;
    ExtendsKeeps(b, LoadOne(b, m).0, m.account);
  }

  /** A successful load leaves exact indexes, whatever was in the store before. */
  lemma {:induction false} LoadGivesExactIndexes(list: seq<Mapping>)
    requires Loaded(list).1.None?
    ensures Indexed(Loaded(list).0)
  {
    if list != [] {
      LoadGivesExactIndexes(list[..|list| - 1]);
      LoadOneKeeps(Loaded(list[..|list| - 1]).0, list[|list| - 1]);
    }
  }

  /** What marshalling writes: every record of the book exactly once. */
  ghost predicate Lists(b: Book, list: seq<Mapping>) {
    && (forall i | 0 <= i < |list| :: list[i].account in b.byAccount && b.byAccount[list[i].account] == list[i])
    && (forall i, j | 0 <= i < j < |list| :: list[i].account != list[j].account)
    && (forall a | a in b.byAccount :: exists i :: 0 <= i < |list| && list[i].account == a)
  }

  ghost function Accounts(list: seq<Mapping>): set<string> { set i | 0 <= i < |list| :: list[i].account }

  /** The part of a book that belongs to some accounts. */
  ghost function Part(b: Book, s: set<string>): Book {
    Book(map a | a in b.byAccount && a in s :: b.byAccount[a],
         map e | e in b.byEmail && b.byEmail[e] in s :: b.byEmail[e],
         map k | k in b.bySubject && b.bySubject[k] in s :: b.bySubject[k])
  }

  lemma {:induction false} LoadOwnEmails(x: map<string, string>, emails: seq<string>, account: string)
    requires NoDup(emails) && forall e | e in emails :: Address(e) && e !in x
    ensures var (x1, list, err) := LoadEmails(x, emails, account);
            && err.None? && list == emails
            && (forall e :: e in x1 <==> e in x || e in emails)
            && (forall e | e in x :: x1[e] == x[e]) && (forall e | e in emails :: x1[e] == account)
  {
    if emails != [] {
      var front := emails[..|emails| - 1];
      assert emails == front + [emails[|emails| - 1]] && emails[|emails| - 1] !in front;
      LoadOwnEmails(x, front, account);
    }
  }

  lemma EmailsAreIndexed(b: Book, a: string)
    requires Indexed(b) && a in b.byAccount
    ensures forall e :: e in b.byAccount[a].emails <==> e in b.byEmail && b.byEmail[e] == a
  {
    assert MappingOk(b, a);
  }

  lemma NextPartEmails(b: Book, s: set<string>, a: string, emails: seq<string>, x: map<string, string>)
    requires forall e :: e in emails <==> e in b.byEmail && b.byEmail[e] == a
    requires forall e :: e in x <==> e in Part(b, s).byEmail || e in emails
    requires forall e | e in Part(b, s).byEmail :: x[e] == b.byEmail[e]
    requires forall e | e in emails :: x[e] == a
    ensures x == Part(b, s + {a}).byEmail
  {
  }

  lemma NextPartRest(b: Book, s: set<string>, m: Mapping)
    requires Indexed(b) && m.account in b.byAccount && b.byAccount[m.account] == m && m.account !in s
    ensures Part(b, s + {m.account}).byAccount == Part(b, s).byAccount[m.account := m]
    ensures m.subject != "" ==> Key(m) !in Part(b, s).bySubject
    ensures Part(b, s + {m.account}).bySubject
            == if m.subject != "" then Part(b, s).bySubject[Key(m) := m.account] else Part(b, s).bySubject
  {
    assert MappingOk(b, m.account);
  }

  lemma LoadNextPart(b: Book, s: set<string>, m: Mapping)
    requires Indexed(b) && m.account in b.byAccount && b.byAccount[m.account] == m && m.account !in s
    ensures LoadOne(Part(b, s), m) == (Part(b, s + {m.account}), None)
  {
    var p, a := Part(b, s), m.account;
    assert MappingOk(b, a);
    forall e | e in m.emails ensures e !in p.byEmail {
      assert b.byEmail[e] == a;
    }
    LoadOwnEmails(p.byEmail, m.emails, a);
    EmailsAreIndexed(b, a);
    NextPartEmails(b, s, a, m.emails, LoadEmails(p.byEmail, m.emails, a).0);
    NextPartRest(b, s, m);
    assert m.(emails := m.emails) == m;
  }

  lemma AccountsGrow(list: seq<Mapping>, n: nat)
    requires 0 < n <= |list| && forall i, j | 0 <= i < j < |list| :: list[i].account != list[j].account
    ensures Accounts(list[..n]) == Accounts(list[..n - 1]) + {list[n - 1].account}
    ensures list[n - 1].account !in Accounts(list[..n - 1])
  {
    var q, r := list[..n], list[..n - 1];
    assert forall i | 0 <= i < n - 1 :: q[i] == r[i];
  }

  lemma LoadStep(b: Book, list: seq<Mapping>, n: nat)
    requires Indexed(b) && Lists(b, list) && 0 < n <= |list|
    requires Loaded(list[..n - 1]) == (Part(b, Accounts(list[..n - 1])), None)
    ensures Loaded(list[..n]) == (Part(b, Accounts(list[..n])), None)
  {
    assert list[..n][..n - 1] == list[..n - 1];
    AccountsGrow(list, n);
    LoadNextPart(b, Accounts(list[..n - 1]), list[n - 1]);
  }

  lemma {:induction false} LoadPrefix(b: Book, list: seq<Mapping>, n: nat)
    requires Indexed(b) && Lists(b, list) && n <= |list|
    ensures Loaded(list[..n]) == (Part(b, Accounts(list[..n])), None)
  {
    if n == 0 {
      assert Part(b, Accounts(list[..0])) == EMPTY;
    } else {
      LoadPrefix(b, list, n - 1);
      LoadStep(b, list, n);
    }
  }

  lemma WholeIsPart(b: Book, s: set<string>)
    requires Indexed(b) && forall a | a in b.byAccount :: a in s
    ensures Part(b, s) == b
  {
    var p := Part(b, s);
    assert p.byAccount == b.byAccount && p.byEmail == b.byEmail && p.bySubject == b.bySubject;
  }

  /** Loading what was saved restores the very same store. */
  lemma LoadInvertsSave(b: Book, list: seq<Mapping>)
    requires Indexed(b) && Lists(b, list)
    ensures Loaded(list) == (b, None)
  {
    LoadPrefix(b, list, |list|);
    assert list[..|list|] == list;
    forall a | a in b.byAccount ensures a in Accounts(list) {
      var i :| 0 <= i < |list| && list[i].account == a;
    }
    WholeIsPart(b, Accounts(list));
  }

  function Normals(emails: seq<string>): (r: seq<string>)
    ensures |r| == |emails| && forall i | 0 <= i < |r| :: r[i] == NormalizeEmail(emails[i])
  {
    seq(|emails|, i requires 0 <= i < |emails| => NormalizeEmail(emails[i]))
  }

  /** One of the first m addresses, folded. */
  predicate Among(emails: seq<string>, m: nat, e: string)
    requires m <= |emails|
  {
    exists j | 0 <= j < m :: NormalizeEmail(emails[j]) == e
  }

  /** The first address of a record that stops the load, or their number. */
  predicate StopsAt(x: map<string, string>, emails: seq<string>, m: nat) {
    m <= |emails|
    && (m < |emails| ==> var e := NormalizeEmail(emails[m]); !ValidEmail(e) || e in x || Among(emails, m, e))
  }

  /** What the address index holds once the first m addresses of an account, all of them new, are in it. */
  ghost predicate Grown(x: map<string, string>, y: map<string, string>, emails: seq<string>, m: nat, account: string)
    requires m <= |emails|
  {
    && (forall e :: e in y <==> e in x || Among(emails, m, e))
    && (forall e | e in x :: y[e] == x[e])
    && (forall e | Among(emails, m, e) :: e !in x && y[e] == account)
  }

  lemma GrownFront(x: map<string, string>, y: map<string, string>, emails: seq<string>, m: nat, account: string)
    requires emails != [] && m < |emails| && Grown(x, y, emails[..|emails| - 1], m, account)
    ensures Grown(x, y, emails, m, account)
    ensures m < |emails| - 1 && StopsAt(x, emails[..|emails| - 1], m) ==> StopsAt(x, emails, m)
    ensures m == |emails| - 1 && (!ValidEmail(NormalizeEmail(emails[m])) || NormalizeEmail(emails[m]) in y) ==> StopsAt(x, emails, m)
  {
    hide NormalizeEmail, ValidEmail;
    assert forall e :: Among(emails[..|emails| - 1], m, e) <==> Among(emails, m, e);
  }

  lemma GrownOne(x: map<string, string>, y: map<string, string>, emails: seq<string>, account: string)
    requires emails != [] && Grown(x, y, emails, |emails| - 1, account) && NormalizeEmail(emails[|emails| - 1]) !in y
    ensures Grown(x, y[NormalizeEmail(emails[|emails| - 1]) := account], emails, |emails|, account)
    ensures StopsAt(x, emails, |emails|)
  {
    hide NormalizeEmail;
    forall e ensures Among(emails, |emails|, e) <==> Among(emails, |emails| - 1, e) || e == NormalizeEmail(emails[|emails| - 1]) {
    }
  }

  /** What loading a record's addresses comes to: the first m of them are in the index. */
  ghost predicate LoadedUpTo(x: map<string, string>, emails: seq<string>, account: string, m: nat) {
    var (y, l, err) := LoadEmails(x, emails, account);
    && m <= |emails| && StopsAt(x, emails, m) && Grown(x, y, emails, m, account)
    && (err.None? <==> m == |emails|) && (err.Some? ==> err.value in {BadAddress, Taken})
  }

  lemma LoadOneMore(x: map<string, string>, emails: seq<string>, account: string, m: nat) returns (k: nat)
    requires emails != [] && LoadedUpTo(x, emails[..|emails| - 1], account, m)
    ensures LoadedUpTo(x, emails, account, k)
  {
    hide NormalizeEmail, ValidEmail, Grown, StopsAt;
    var y := LoadEmails(x, emails[..|emails| - 1], account).0;
    GrownFront(x, y, emails, m, account);
    k := m;
    if LoadEmails(x, emails, account).2.None? {
      GrownOne(x, y, emails, account);
      k := |emails|;
    }
  }

  lemma {:induction false} LoadEmailsStops(x: map<string, string>, emails: seq<string>, account: string) returns (m: nat)
    ensures LoadedUpTo(x, emails, account, m)
  {
    if emails == [] {
      m := 0;
    } else {
      m := LoadEmailsStops(x, emails[..|emails| - 1], account);
      m := LoadOneMore(x, emails, account, m);
    }
  }

  lemma {:induction false} LoadEmailsFolds(x: map<string, string>, emails: seq<string>, account: string)
    requires LoadEmails(x, emails, account).2.None?
    ensures LoadEmails(x, emails, account).1 == Normals(emails)
  {
    hide NormalizeEmail, ValidEmail;
    if emails != [] {
      LoadEmailsFolds(x, emails[..|emails| - 1], account);
    }
  }

  /** The record as a successful load keeps it. */
  function FoldedRecord(r: Mapping): Mapping { r.(emails := Normals(r.emails)) }

  lemma LoadOneAdds(p: Book, r: Mapping)
    requires LoadOne(p, r).1.None?
    ensures r.account !in p.byAccount && LoadOne(p, r).0.byAccount == p.byAccount[r.account := FoldedRecord(r)]
  {
    hide NormalizeEmail, ValidEmail;
    LoadEmailsFolds(p.byEmail, r.emails, r.account);
  }

  /** Exactly which record is accepted: a usable name not seen yet, addresses usable, new and distinct, and a subject nobody has. */
  lemma RecordLoadsIff(p: Book, r: Mapping)
    ensures LoadOne(p, r).1.None? <==>
              && ValidName(r.account) && r.account !in p.byAccount
              && (forall i | 0 <= i < |r.emails| ::
                    var e := NormalizeEmail(r.emails[i]); ValidEmail(e) && e !in p.byEmail && !Among(r.emails, i, e))
              && (r.subject != "" ==> Key(r) !in p.bySubject)
  {
    hide NormalizeEmail, ValidEmail, ValidName, SubjectKey, Among;
    AddressesLoadIff(p.byEmail, r.emails, r.account);
  }

  lemma {:induction false} AddressesLoadIff(x: map<string, string>, emails: seq<string>, account: string)
    ensures LoadEmails(x, emails, account).2.None? <==>
              forall i | 0 <= i < |emails| ::
                var e := NormalizeEmail(emails[i]); ValidEmail(e) && e !in x && !Among(emails, i, e)
  {
    hide NormalizeEmail, ValidEmail;
    if emails != [] {
      var front, n := emails[..|emails| - 1], |emails| - 1;
      AddressesLoadIff(x, front, account);
      var m := LoadEmailsStops(x, front, account);
      assert forall i, e | 0 <= i < n :: Among(front, i, e) <==> Among(emails, i, e);
      assert Among(emails, n, NormalizeEmail(emails[n])) <==> Among(front, n, NormalizeEmail(emails[n]));
      assert forall i | 0 <= i < n :: front[i] == emails[i];
    }
  }

  /** After a successful load the store holds the file's records, addresses folded, and nothing else. */
  lemma {:induction false} LoadedHoldsTheRecords(list: seq<Mapping>)
    requires Loaded(list).1.None?
    ensures var b := Loaded(list).0;
            && (forall i | 0 <= i < |list| :: list[i].account in b.byAccount && b.byAccount[list[i].account] == FoldedRecord(list[i]))
            && (forall a | a in b.byAccount :: exists i :: 0 <= i < |list| && list[i].account == a)
  {
    hide FoldedRecord, LoadOne;
    if list != [] {
      var front, last := list[..|list| - 1], list[|list| - 1];
      LoadedHoldsTheRecords(front);
      LoadOneAdds(Loaded(front).0, last);
      var b := Loaded(list).0;
      forall a | a in b.byAccount ensures exists i :: 0 <= i < |list| && list[i].account == a {
        if a == last.account {
          assert list[|list| - 1].account == a;
        } else {
          var i :| 0 <= i < |front| && front[i].account == a;
          assert list[i].account == a;
        }
      }
    }
  }

  /** One refused record: nothing of it is kept but the addresses before the one that stopped it. */
  lemma {:induction false} RefusedRecordLeavesStrays(p: Book, r: Mapping) returns (m: nat)
    requires LoadOne(p, r).1.Some?
    ensures var (b, err) := LoadOne(p, r);
            && b.byAccount == p.byAccount && b.bySubject == p.bySubject
            && m <= |r.emails| && Grown(p.byEmail, b.byEmail, r.emails, m, r.account)
            && (if err.value in {BadAccount, Twice} then m == 0 else StopsAt(p.byEmail, r.emails, m))
            && (m > 0 ==> r.account !in p.byAccount)
  {
    hide NormalizeEmail, ValidEmail, ValidName;
    var k := LoadEmailsStops(p.byEmail, r.emails, r.account);
    if !ValidName(r.account) || r.account in p.byAccount {
      m := 0;
      assert forall e :: !Among(r.emails, 0, e);
    } else {
      m := k;
    }
  }

  lemma StraysSpoilTheIndex(p: Book, b: Book, emails: seq<string>, m: nat, account: string)
    requires Indexed(p) && b.byAccount == p.byAccount && b.bySubject == p.bySubject && m <= |emails|
    requires Grown(p.byEmail, b.byEmail, emails, m, account) && (m > 0 ==> account !in p.byAccount)
    ensures Indexed(b) <==> m == 0
  {
    hide NormalizeEmail;
    if m == 0 {
      assert b.byEmail == p.byEmail;
      assert b == p;
    } else {
      assert Among(emails, m, NormalizeEmail(emails[0]));
    }
  }

  /**
   A refused file is the one exception to "refused changes nothing": the store is left with exactly the
   records before the bad one, their subjects, and the bad one's addresses up to the one that stopped it.
   The indexes are exact only if there is no such stray address: a stray one names an account without a record.
   */
  lemma {:induction false} RefusedLoadKeepsThePrefix(list: seq<Mapping>) returns (n: nat, m: nat)
    requires Loaded(list).1.Some?
    ensures n < |list| && Loaded(list[..n]).1.None? && m <= |list[n].emails|
    ensures var p, b := Loaded(list[..n]).0, Loaded(list).0;
            && Indexed(p) && LoadOne(p, list[n]) == Loaded(list)
            && b.byAccount == p.byAccount && b.bySubject == p.bySubject
            && Grown(p.byEmail, b.byEmail, list[n].emails, m, list[n].account)
            && (if Loaded(list).1.value in {BadAccount, Twice} then m == 0 else StopsAt(p.byEmail, list[n].emails, m))
            && (Indexed(b) <==> m == 0) && (m > 0 ==> list[n].account !in b.byAccount)
  {
    hide LoadOne, Indexed, Grown, StopsAt;
    var front := list[..|list| - 1];
    if Loaded(front).1.Some? {
      n, m := RefusedLoadKeepsThePrefix(front);
      assert front[..n] == list[..n] && front[n] == list[n];
    } else {
      n := |list| - 1;
      LoadGivesExactIndexes(front);
      m := RefusedRecordLeavesStrays(Loaded(front).0, list[n]);
      StraysSpoilTheIndex(Loaded(front).0, Loaded(list).0, list[n].emails, m, list[n].account);
    }
  }

  // ------------------------------------------------------- trust on first use

  ghost predicate PinnedTo(b: Book, a: string, issuer: string, subject: string) {
    a in b.byAccount && subject != "" && b.byAccount[a].issuer == issuer && b.byAccount[a].subject == subject
  }

  function BySubject(b: Book, issuer: string, subject: string): Option<string> {
    var k := SubjectKey(issuer, subject);
    if subject != "" && k in b.bySubject then Some(b.bySubject[k]) else None
  }

  function ByEmail(b: Book, email: string): Option<string> {
    var e := NormalizeEmail(email);
    if e != "" && e in b.byEmail then Some(b.byEmail[e]) else None
  }

  /** The subject index answers for exactly the pinned pairs. */
  lemma BySubjectIsThePin(b: Book, a: string, issuer: string, subject: string)
    requires Indexed(b) && '\0' !in issuer
    requires forall x | x in b.byAccount :: '\0' !in b.byAccount[x].issuer
    ensures BySubject(b, issuer, subject) == Some(a) <==> PinnedTo(b, a, issuer, subject)
  {
    if BySubject(b, issuer, subject) == Some(a) {
      SubjectKeyIsInjective(issuer, subject, b.byAccount[a].issuer, b.byAccount[a].subject);
    }
    if PinnedTo(b, a, issuer, subject) {
      assert MappingOk(b, a);
    }
  }

  /** Nothing but Forget changes the subject an account is pinned to. */
  lemma PinStays(b: Book, o: Op, now: int, a: string, issuer: string, subject: string)
    requires PinnedTo(b, a, issuer, subject) && o != Forget(a)
    ensures PinnedTo(Step(b, o, now), a, issuer, subject)
  {
  }

  /** Once pinned, an account is never granted to another pair by any of the operations that grant. */
  lemma GrantsOnlyThePinnedPair(b: Book, a: string, issuer: string, subject: string, i: string, s: string,
                                emails: seq<string>, who: string, now: int)
    requires Indexed(b) && PinnedTo(b, a, issuer, subject) && s != ""
    requires Pinned(b, a, i, s, now).Ok? || Approved(b, a, i, s, emails, who, now).Ok?
    ensures i == issuer && s == subject
  {
  }

  // ------------------------------------------------ what the operations are for

  ghost predicate OthersUntouched(b: Book, c: Book, a: string) {
    forall x | x != a :: (x in c.byAccount <==> x in b.byAccount) && (x in b.byAccount ==> c.byAccount[x] == b.byAccount[x])
  }

  /** The address is the account's: on its record, and answered for by it. */
  ghost predicate Has(b: Book, a: string, e: string) {
    a in b.byAccount && e in b.byAccount[a].emails && e in b.byEmail && b.byEmail[e] == a
  }

  /** Only the account's own addresses can change hands: any other answers as it did. */
  ghost predicate OtherAddressesKept(b: Book, c: Book, changed: set<string>) {
    forall e | e !in changed :: (e in c.byEmail <==> e in b.byEmail) && (e in b.byEmail ==> c.byEmail[e] == b.byEmail[e])
  }

  /** Exactly when a pin is accepted; then the account is pinned to the pair and its addresses are what they were. */
  lemma PinMeans(b: Book, a: string, issuer: string, subject: string, now: int)
    ensures Pinned(b, a, issuer, subject, now).Ok? <==>
              && subject != "" && a in b.byAccount
              && (PinnedTo(b, a, issuer, subject)
                  || (b.byAccount[a].subject == "" && SubjectKey(issuer, subject) !in b.bySubject))
    ensures Pinned(b, a, issuer, subject, now).Ok? ==>
              var c := Pinned(b, a, issuer, subject, now).value.book;
              && PinnedTo(c, a, issuer, subject) && c.byAccount[a].emails == b.byAccount[a].emails && c.byEmail == b.byEmail
              && OthersUntouched(b, c, a) && (Pinned(b, a, issuer, subject, now).value.changed <==> !PinnedTo(b, a, issuer, subject))
  {
    hide SubjectKey;
  }

  /** Exactly when an address is attached; then the account has it as well as those it had. */
  lemma AttachMeans(b: Book, a: string, email: string, now: int)
    requires Indexed(b)
    ensures var e := NormalizeEmail(email);
            Attached(b, a, email, now).Ok? <==> ValidEmail(e) && a in b.byAccount && (e in b.byEmail ==> b.byEmail[e] == a)
    ensures Attached(b, a, email, now).Ok? ==>
              var c, e := Attached(b, a, email, now).value.book, NormalizeEmail(email);
              && Has(c, a, e) && c.bySubject == b.bySubject && OthersUntouched(b, c, a) && OtherAddressesKept(b, c, {e})
              && (forall x :: x in c.byAccount[a].emails <==> x in b.byAccount[a].emails || x == e)
              && Key(c.byAccount[a]) == Key(b.byAccount[a])
  {
    hide NormalizeEmail, ValidEmail, ValidName, SubjectKey, Sorted;
    if a in b.byAccount {
      assert MappingOk(b, a);
      SortedKeeps(b.byAccount[a].emails + [NormalizeEmail(email)]);
    }
  }

  /** Exactly when an address is detached; then nobody has it and every other one is where it was. */
  lemma DetachMeans(b: Book, a: string, email: string, now: int)
    requires Indexed(b)
    ensures var e := NormalizeEmail(email);
            Detached(b, a, email, now).Ok? <==> Has(b, a, e)
    ensures Detached(b, a, email, now).Ok? ==>
              var c, e := Detached(b, a, email, now).value.book, NormalizeEmail(email);
              && e !in c.byEmail && c.bySubject == b.bySubject && OthersUntouched(b, c, a) && OtherAddressesKept(b, c, {e})
              && a in c.byAccount && (forall x :: x in c.byAccount[a].emails <==> x in b.byAccount[a].emails && x != e)
              && Key(c.byAccount[a]) == Key(b.byAccount[a])
  {
    hide NormalizeEmail, ValidEmail, ValidName, SubjectKey, Drop;
    if a in b.byAccount {
      assert MappingOk(b, a);
    }
  }

  /** Exactly when an account is forgotten; then its addresses and its subject answer for nobody. */
  lemma ForgetMeans(b: Book, a: string)
    requires Indexed(b)
    ensures Forgotten(b, a).Ok? <==> a in b.byAccount
    ensures Forgotten(b, a).Ok? ==>
              var c, m := Forgotten(b, a).value.book, b.byAccount[a];
              && a !in c.byAccount && OthersUntouched(b, c, a) && OtherAddressesKept(b, c, set e | e in m.emails)
              && (forall e | e in m.emails :: e !in c.byEmail) && (m.subject != "" ==> Key(m) !in c.bySubject)
              && (forall k | k in c.bySubject :: k in b.bySubject && c.bySubject[k] == b.bySubject[k])
  {
    hide SubjectKey, NormalizeEmail, ValidEmail, ValidName;
  }

  /** What an approval asks: a usable name, addresses that are usable and nobody else's, and a pair that is nobody else's. */
  ghost predicate Approvable(b: Book, a: string, issuer: string, subject: string, emails: seq<string>) {
    && ValidName(a)
    && (forall i | 0 <= i < |emails| ::
          var e := NormalizeEmail(emails[i]); ValidEmail(e) && (e in b.byEmail ==> b.byEmail[e] == a))
    && (subject != "" ==>
          && (SubjectKey(issuer, subject) in b.bySubject ==> b.bySubject[SubjectKey(issuer, subject)] == a)
          && (a in b.byAccount && b.byAccount[a].subject != "" ==> PinnedTo(b, a, issuer, subject)))
  }

  lemma {:induction false} CleanIsNormals(emails: seq<string>)
    ensures Clean(emails).Ok? ==> Clean(emails).value == Normals(emails)
  {
    hide NormalizeEmail, ValidEmail;
    if emails != [] {
      CleanIsNormals(emails[..|emails| - 1]);
    }
  }

  lemma ApprovedIff(b: Book, a: string, issuer: string, subject: string, emails: seq<string>, who: string, now: int)
    ensures Approved(b, a, issuer, subject, emails, who, now).Ok? <==> Approvable(b, a, issuer, subject, emails)
  {
    hide NormalizeEmail, ValidEmail, ValidName, SubjectKey, Sorted, Adopt;
    CleanGivesAddresses(emails);
    CleanIsNormals(emails);
    if Clean(emails).Ok? {
      var clean := Clean(emails).value;
      assert forall i | 0 <= i < |emails| :: clean[i] == NormalizeEmail(emails[i]) && clean[i] in clean;
    }
    hide Clean;
  }

  /** What an approval does to the addresses. */
  ghost predicate Adopted(b: Book, c: Book, a: string, given: seq<string>) {
    && a in c.byAccount && (forall i | 0 <= i < |given| :: Has(c, a, given[i]))
    && (forall e :: e in c.byAccount[a].emails <==> e in ListOf(b, a) || e in given)
    && OthersUntouched(b, c, a) && OtherAddressesKept(b, c, set e | e in given)
  }

  lemma AdoptedIs(b: Book, c: Book, a: string, given: seq<string>, l: seq<string>)
    requires a in c.byAccount && OthersUntouched(b, c, a) && (forall e :: e in c.byAccount[a].emails <==> e in l)
    requires forall e :: e in l <==> e in ListOf(b, a) || (e in given && e !in b.byEmail)
    requires forall e :: e in c.byEmail <==> e in b.byEmail || e in given
    requires (forall e | e in b.byEmail :: c.byEmail[e] == b.byEmail[e]) && (forall e | e in c.byEmail && e !in b.byEmail :: c.byEmail[e] == a)
    requires forall e | e in given && e in b.byEmail :: b.byEmail[e] == a && e in ListOf(b, a)
    ensures Adopted(b, c, a, given)
  {
    hide ListOf, OthersUntouched;
    forall i | 0 <= i < |given| ensures Has(c, a, given[i]) {
      assert given[i] in given;
    }
  }

  /** Every address given becomes the account's, beside those it had, and no other address or record changes. */
  lemma ApproveAdopts(b: Book, a: string, issuer: string, subject: string, emails: seq<string>, who: string, now: int)
    requires Indexed(b) && Approved(b, a, issuer, subject, emails, who, now).Ok?
    ensures Adopted(b, Approved(b, a, issuer, subject, emails, who, now).value.book, a, Normals(emails))
  {
    hide NormalizeEmail, ValidEmail, ValidName, SubjectKey, Sorted, Adopt, AnotherHas, Clean, Adopted, OthersUntouched, ListOf, Normals, Indexed;
    CleanIsNormals(emails);
    ApprovedEmails(b, a, issuer, subject, emails, who, now);
    AdoptInBook(b, a, Clean(emails).value);
    var l := Adopt(ListOf(b, a), b.byEmail, Clean(emails).value, a).0;
    SortedKeeps(l);
    var c := Approved(b, a, issuer, subject, emails, who, now).value.book;
    assert Clean(emails).Ok?;
    hide Approved;
    AdoptedIs(b, c, a, Clean(emails).value, l);
  }

  lemma {:induction false} ApprovedEmails(b: Book, a: string, issuer: string, subject: string, emails: seq<string>, who: string, now: int)
    requires Indexed(b) && Approved(b, a, issuer, subject, emails, who, now).Ok?
    ensures var c := Approved(b, a, issuer, subject, emails, who, now).value.book;
            var (l, x) := Adopt(ListOf(b, a), b.byEmail, Clean(emails).value, a);
            && a in c.byAccount && c.byAccount[a].emails == Sorted(l) && c.byEmail == x && OthersUntouched(b, c, a)
    ensures forall e | e in Clean(emails).value && e in b.byEmail :: b.byEmail[e] == a && e in ListOf(b, a)
  {
    hide NormalizeEmail, ValidEmail, ValidName, SubjectKey, Sorted, Adopt, Clean;
    if a in b.byAccount {
      assert MappingOk(b, a);
    }
  }

  /** An approval binds the pair if there is one, and keeps who approved the account first. */
  lemma ApproveBindsThePair(b: Book, a: string, issuer: string, subject: string, emails: seq<string>, who: string, now: int)
    requires Approved(b, a, issuer, subject, emails, who, now).Ok?
    ensures var c := Approved(b, a, issuer, subject, emails, who, now).value.book;
            && (subject != "" ==> PinnedTo(c, a, issuer, subject) && BySubject(c, issuer, subject) == Some(a))
            && (subject == "" ==> c.bySubject == b.bySubject && a in c.byAccount
                                  && (a in b.byAccount ==> Key(c.byAccount[a]) == Key(b.byAccount[a])))
            && c.byAccount[a].updatedAt == now
            && (if a in b.byAccount && b.byAccount[a].approvedBy != ""
                then c.byAccount[a].approvedBy == b.byAccount[a].approvedBy && c.byAccount[a].approvedAt == b.byAccount[a].approvedAt
                else c.byAccount[a].approvedBy == who && c.byAccount[a].approvedAt == now)
  {
    hide NormalizeEmail, ValidEmail, ValidName, SubjectKey, Sorted, Adopt, AnotherHas, Clean;
  }

  // -------------------------------------------------------------- signing in

  datatype Ident = Ident(issuer: string, subject: string, emails: seq<string>)

  /** What the world outside the store answers during one sign-in. */
  datatype World = World(trustEmail: bool, known: string -> bool, created: Option<string>)

  function LocalPart(email: string): Option<string> {
    if email == [] then None
    else if email[0] == '@' then Some("")
    else
      var r := LocalPart(email[1..]);
      if r.Some? then Some([email[0]] + r.value) else None
  }

  function AccountFromEmail(email: string): Option<string> {
    var l := LocalPart(email);
    if l.Some? && l.value != "" && ValidName(Lower(l.value)) then Some(Lower(l.value)) else None
  }

  /** The local part is what stands before the first '@'. */
  lemma {:induction false} LocalPartIsBeforeTheAt(email: string)
    ensures LocalPart(email).Some? <==> '@' in email
    ensures LocalPart(email).Some? ==>
              var l := LocalPart(email).value;
              '@' !in l && |l| < |email| && email[|l|] == '@' && email[..|l|] == l
  {
    if email != [] && email[0] != '@' {
      LocalPartIsBeforeTheAt(email[1..]);
      assert email == [email[0]] + email[1..];
    }
  }

  /** The addresses a recognised subject arrives with, recorded one after another. */
  function AttachAll(b: Book, a: string, emails: seq<string>, now: int): Book {
    if emails == [] then b
    else
      var c := AttachAll(b, a, emails[..|emails| - 1], now);
      var e := emails[|emails| - 1];
      if ByEmail(c, e).Some? then c else Step(c, Attach(a, e), now)
  }

  function FirstOwner(b: Book, emails: seq<string>): Option<string> {
    if emails == [] then None
    else if ByEmail(b, emails[0]).Some? then ByEmail(b, emails[0])
    else FirstOwner(b, emails[1..])
  }

  function FirstTrusted(w: World, emails: seq<string>): Option<(string, string)> {
    if emails == [] then None
    else
      var a := AccountFromEmail(emails[0]);
      if a.Some? && w.known(a.value) then Some((a.value, emails[0])) else FirstTrusted(w, emails[1..])
  }

  /** A conflict is refused and reported, any other failure is an error. */
  function Reported(a: string, r: Result<Change, IdError>): Result<Option<string>, IdError> {
    match r
    case Ok(_) => Ok(Some(a))
    case Err(e) => if e.SubjectPinned? || e.Taken? then Ok(None) else Err(e)
  }

  function Bind(b: Book, a: string, r: Result<Change, IdError>): (Book, Result<Option<string>, IdError>) {
    (if r.Ok? then r.value.book else b, Reported(a, r))
  }

  function Resolved(b: Book, id: Ident, w: World, now: int): (Book, Result<Option<string>, IdError>) {
    var bound := BySubject(b, id.issuer, id.subject);
    if bound.Some? then (AttachAll(b, bound.value, id.emails, now), Ok(bound))
    else
      var owner := FirstOwner(b, id.emails);
      if owner.Some? then Bind(b, owner.value, Pinned(b, owner.value, id.issuer, id.subject, now))
      else
        var trusted := if w.trustEmail then FirstTrusted(w, id.emails) else None;
        if trusted.Some? then
          Bind(b, trusted.value.0,
               Approved(b, trusted.value.0, id.issuer, id.subject, [trusted.value.1], "trust-email", now))
        else if w.created.None? then (b, Ok(None))
        else
          var r := Approved(b, w.created.value, id.issuer, id.subject, id.emails, "provision", now);
          if r.Ok? then (r.value.book, Ok(w.created)) else (b, Ok(None))
  }

  // ------------------------------------------------- why an account is returned

  /** The account owns the first of the addresses that anybody owns. */
  ghost predicate OwnsFirst(b: Book, emails: seq<string>, a: string) {
    exists i | 0 <= i < |emails| :: ByEmail(b, emails[i]) == Some(a) && forall j | 0 <= j < i :: ByEmail(b, emails[j]) == None
  }

  ghost predicate Unowned(b: Book, emails: seq<string>) { forall i | 0 <= i < |emails| :: ByEmail(b, emails[i]) == None }

  /** The address names an account that exists. */
  ghost predicate NamesKnown(w: World, e: string, a: string) { AccountFromEmail(e) == Some(a) && w.known(a) }

  ghost predicate NamesNobody(w: World, e: string) { forall a :: !NamesKnown(w, e, a) }

  /** The first of the addresses that names an account that exists, where addresses are trusted. */
  ghost predicate TrustedFor(w: World, emails: seq<string>, a: string, e: string) {
    w.trustEmail
    && exists i | 0 <= i < |emails| :: emails[i] == e && NamesKnown(w, e, a) && forall j | 0 <= j < i :: NamesNobody(w, emails[j])
  }

  ghost predicate TrustsNobody(w: World, emails: seq<string>) {
    w.trustEmail ==> forall i | 0 <= i < |emails| :: NamesNobody(w, emails[i])
  }

  lemma {:induction false} FirstOwnerOwnsFirst(b: Book, emails: seq<string>)
    ensures FirstOwner(b, emails) == None <==> Unowned(b, emails)
    ensures forall a :: FirstOwner(b, emails) == Some(a) <==> OwnsFirst(b, emails, a)
  {
    hide ByEmail;
    if emails != [] {
      FirstOwnerOwnsFirst(b, emails[1..]);
      OwnsFirstLater(b, emails);
    }
  }

  lemma OwnsFirstLater(b: Book, emails: seq<string>)
    requires emails != []
    ensures ByEmail(b, emails[0]) == None ==> forall a :: OwnsFirst(b, emails, a) <==> OwnsFirst(b, emails[1..], a)
    ensures ByEmail(b, emails[0]).Some? ==> forall a :: OwnsFirst(b, emails, a) <==> ByEmail(b, emails[0]) == Some(a)
    ensures Unowned(b, emails) <==> ByEmail(b, emails[0]) == None && Unowned(b, emails[1..])
  {
    hide ByEmail;
    var rest := emails[1..];
    assert forall i | 0 <= i < |rest| :: rest[i] == emails[i + 1];
    forall a | OwnsFirst(b, rest, a) && ByEmail(b, emails[0]) == None ensures OwnsFirst(b, emails, a) {
      var i :| 0 <= i < |rest| && ByEmail(b, rest[i]) == Some(a) && forall j | 0 <= j < i :: ByEmail(b, rest[j]) == None;
      assert ByEmail(b, emails[i + 1]) == Some(a);
      assert forall j | 0 <= j < i + 1 :: j > 0 ==> emails[j] == rest[j - 1];
    }
    forall a | OwnsFirst(b, emails, a) && ByEmail(b, emails[0]) == None ensures OwnsFirst(b, rest, a) {
      var i :| 0 <= i < |emails| && ByEmail(b, emails[i]) == Some(a) && forall j | 0 <= j < i :: ByEmail(b, emails[j]) == None;
      assert ByEmail(b, rest[i - 1]) == Some(a);
    }
    if Unowned(b, emails) {
      forall i | 0 <= i < |rest| ensures ByEmail(b, rest[i]) == None {
        assert rest[i] == emails[i + 1];
      }
    }
    assert forall i | 0 < i < |emails| :: emails[i] == rest[i - 1];
  }

  lemma {:induction false} FirstTrustedIsTrusted(w: World, emails: seq<string>)
    requires w.trustEmail
    ensures FirstTrusted(w, emails) == None <==> TrustsNobody(w, emails)
    ensures forall a, e :: FirstTrusted(w, emails) == Some((a, e)) <==> TrustedFor(w, emails, a, e)
  {
    hide AccountFromEmail;
    if emails != [] {
      FirstTrustedIsTrusted(w, emails[1..]);
      TrustedLater(w, emails);
    }
  }

  lemma TrustedLater(w: World, emails: seq<string>)
    requires w.trustEmail && emails != []
    ensures NamesNobody(w, emails[0]) ==> forall a, e :: TrustedFor(w, emails, a, e) <==> TrustedFor(w, emails[1..], a, e)
    ensures !NamesNobody(w, emails[0]) ==> forall a, e :: TrustedFor(w, emails, a, e) <==> e == emails[0] && NamesKnown(w, e, a)
    ensures TrustsNobody(w, emails) <==> NamesNobody(w, emails[0]) && TrustsNobody(w, emails[1..])
  {
    hide NamesKnown, NamesNobody;
    var rest := emails[1..];
    assert forall i | 0 <= i < |rest| :: rest[i] == emails[i + 1];
    forall a, e | TrustedFor(w, rest, a, e) && NamesNobody(w, emails[0]) ensures TrustedFor(w, emails, a, e) {
      var i :| 0 <= i < |rest| && rest[i] == e && NamesKnown(w, e, a) && forall j | 0 <= j < i :: NamesNobody(w, rest[j]);
      assert emails[i + 1] == e;
      assert forall j | 0 <= j < i + 1 :: j > 0 ==> emails[j] == rest[j - 1];
    }
    forall a, e | TrustedFor(w, emails, a, e) && NamesNobody(w, emails[0]) ensures TrustedFor(w, rest, a, e) {
      var i :| 0 <= i < |emails| && emails[i] == e && NamesKnown(w, e, a) && forall j | 0 <= j < i :: NamesNobody(w, emails[j]);
      NamedIsNotNobody(w, e, a);
      assert rest[i - 1] == e;
    }
    if TrustsNobody(w, emails) {
      forall i | 0 <= i < |rest| ensures NamesNobody(w, rest[i]) {
        assert rest[i] == emails[i + 1];
      }
    }
    assert forall i | 0 < i < |emails| :: emails[i] == rest[i - 1];
    forall a, e | TrustedFor(w, emails, a, e) ensures NamesKnown(w, e, a) && !NamesNobody(w, e) {
      NamedIsNotNobody(w, e, a);
    }
  }

  lemma NamedIsNotNobody(w: World, e: string, a: string)
    requires NamesKnown(w, e, a)
    ensures !NamesNobody(w, e)
  {
  }

  /**
   Exactly why a sign-in nobody interrupts is let in as an account: its subject is bound to it; or, being unbound, the account
   owns the first of its addresses that anybody owns and can be pinned; or, nobody owning any, the first address that names
   an existing account names it, addresses being trusted, and it can be approved; or, no address naming one either,
   provisioning created it and it can be approved.
   */
  lemma ReturnedIff(b: Book, id: Ident, w: World, now: int, a: string)
    ensures Resolved(b, id, w, now).1 == Ok(Some(a)) <==>
              var bound := BySubject(b, id.issuer, id.subject);
              || bound == Some(a)
              || (bound == None && OwnsFirst(b, id.emails, a) && Pinned(b, a, id.issuer, id.subject, now).Ok?)
              || (bound == None && Unowned(b, id.emails)
                  && exists e :: TrustedFor(w, id.emails, a, e) && Approvable(b, a, id.issuer, id.subject, [e]))
              || (bound == None && Unowned(b, id.emails) && TrustsNobody(w, id.emails)
                  && w.created == Some(a) && Approvable(b, a, id.issuer, id.subject, id.emails))
  {
    hide BySubject, Pinned, Approved, Approvable, OwnsFirst, Unowned, TrustedFor, FirstOwner, FirstTrusted, AttachAll;
    FirstOwnerOwnsFirst(b, id.emails);
    ApprovedIff(b, a, id.issuer, id.subject, id.emails, "provision", now);
    if w.trustEmail {
      FirstTrustedIsTrusted(w, id.emails);
      var t := FirstTrusted(w, id.emails);
      if t.Some? {
        ApprovedIff(b, t.value.0, id.issuer, id.subject, [t.value.1], "trust-email", now);
      }
    } else {
      NobodyIsTrusted(w, id.emails);
    }
  }

  ghost predicate Conflict(e: IdError) { e.SubjectPinned? || e.Taken? }

  /**
   When a sign-in is an error rather than a refusal: the pin of the first owner, or the approval by a trusted address, fails for
   another reason than a conflict.  A conflict lets nobody in, and neither does anything that goes wrong with provisioning.
   */
  lemma ErrorIff(b: Book, id: Ident, w: World, now: int, e: IdError)
    ensures Resolved(b, id, w, now).1 == Err(e) <==>
              && BySubject(b, id.issuer, id.subject) == None && !Conflict(e)
              && ((exists a :: OwnsFirst(b, id.emails, a) && Pinned(b, a, id.issuer, id.subject, now) == Err(e))
                  || (Unowned(b, id.emails)
                      && exists a, x :: TrustedFor(w, id.emails, a, x)
                                        && Approved(b, a, id.issuer, id.subject, [x], "trust-email", now) == Err(e)))
    ensures !(Resolved(b, id, w, now).1.Ok? && Resolved(b, id, w, now).1.value.Some?) ==> Resolved(b, id, w, now).0 == b
  {
    hide BySubject, Pinned, Approved, OwnsFirst, Unowned, TrustedFor, FirstOwner, FirstTrusted, AttachAll;
    FirstOwnerOwnsFirst(b, id.emails);
    if w.trustEmail {
      FirstTrustedIsTrusted(w, id.emails);
    } else {
      NobodyIsTrusted(w, id.emails);
    }
  }

  lemma NobodyIsTrusted(w: World, emails: seq<string>)
    requires !w.trustEmail
    ensures TrustsNobody(w, emails) && forall a, e :: !TrustedFor(w, emails, a, e)
  {
  }

  /** Somebody recognised by subject brings every usable address nobody had into the account, and no other moves. */
  lemma {:induction false} AttachAllMeans(b: Book, a: string, emails: seq<string>, now: int)
    requires Indexed(b) && a in b.byAccount
    ensures var c := AttachAll(b, a, emails, now);
            && Indexed(c) && a in c.byAccount && OthersUntouched(b, c, a) && c.bySubject == b.bySubject
            && (forall e | e in b.byEmail :: e in c.byEmail && c.byEmail[e] == b.byEmail[e])
            && (forall i | 0 <= i < |emails| && ValidEmail(NormalizeEmail(emails[i])) && NormalizeEmail(emails[i]) !in b.byEmail ::
                  Has(c, a, NormalizeEmail(emails[i])))
            && (forall e | e in c.byEmail && e !in b.byEmail :: e in Normals(emails) && c.byEmail[e] == a)
  {
    hide NormalizeEmail, ValidEmail, Step, Indexed, Has;
    if emails != [] {
      var front, last := emails[..|emails| - 1], emails[|emails| - 1];
      AttachAllMeans(b, a, front, now);
      AttachOneMeans(AttachAll(b, a, front, now), a, last, now);
      NormalsSnoc(front, last);
      assert emails == front + [last];
    }
  }

  lemma NormalsSnoc(emails: seq<string>, e: string)
    ensures Normals(emails + [e]) == Normals(emails) + [NormalizeEmail(e)]
  {
  }

  lemma AttachOneMeans(b: Book, a: string, email: string, now: int)
    requires Indexed(b) && a in b.byAccount
    ensures var c := Recorded(b, a, email, now);
            && Indexed(c) && a in c.byAccount && OthersUntouched(b, c, a) && c.bySubject == b.bySubject
            && (forall e | Has(b, a, e) :: Has(c, a, e))
            && (forall e | e in b.byEmail :: e in c.byEmail && c.byEmail[e] == b.byEmail[e])
            && (ValidEmail(NormalizeEmail(email)) ==>
                  if NormalizeEmail(email) in b.byEmail then c == b else Has(c, a, NormalizeEmail(email)))
            && (forall e | e in c.byEmail && e !in b.byEmail :: e == NormalizeEmail(email) && c.byEmail[e] == a)
  {
    hide NormalizeEmail, ValidEmail;
    StepKeepsIndexed(b, Attach(a, email), now);
    AttachMeans(b, a, email, now);
    hide Attached, Indexed;
  }

  // -------------------------------------------------- a sign-in, call by call

  /**
   Where a sign-in stands between two of its calls on the store, each of which takes the store's lock for
   itself.  `Deciding` covers the questions to the gate and to provisioning, which may take minutes.
   */
  datatype Phase =
    | Starting
    | Recording(account: string, i: nat)
    | Attaching(account: string, i: nat)
    | Looking(i: nat)
    | Pinning(account: string)
    | Deciding
    | Approving(account: string, emails: seq<string>, trusted: bool)
    | Over(r: Result<Option<string>, IdError>)

  /** The call a sign-in makes next: one that only reads, one that may write, or none. */
  datatype StoreCall = Lookup | Write(o: Op) | NoCall

  function CallOf(id: Ident, p: Phase): StoreCall {
    match p
    case Starting => Lookup
    case Recording(_, i) => if i < |id.emails| then Lookup else NoCall
    case Attaching(a, i) => if i < |id.emails| then Write(Attach(a, id.emails[i])) else NoCall
    case Looking(i) => if i < |id.emails| then Lookup else NoCall
    case Pinning(a) => Write(Op.Pin(a, id.issuer, id.subject))
    case Approving(a, es, trusted) =>
      Write(Op.Approve(a, id.issuer, id.subject, es, if trusted then "trust-email" else "provision"))
    case _ => NoCall
  }

  /** What a lookup leads to, in the store as it answers. */
  function LookedUp(b: Book, id: Ident, p: Phase): Phase
    requires CallOf(id, p).Lookup?
  {
    match p
    case Starting =>
      var bound := BySubject(b, id.issuer, id.subject);
      if bound.Some? then Recording(bound.value, 0) else Looking(0)
    case Recording(a, i) => if ByEmail(b, id.emails[i]).Some? then Recording(a, i + 1) else Attaching(a, i)
    case Looking(i) =>
      var owner := ByEmail(b, id.emails[i]);
      if owner.Some? then Pinning(owner.value) else Looking(i + 1)
  }

  /** What the answer to a write leads to; provisioning reports no error, only that nobody was let in. */
  function Answered(p: Phase, r: Result<Change, IdError>): Phase {
    match p
    case Attaching(a, i) => Recording(a, i + 1)
    case Pinning(a) => Over(Reported(a, r))
    case Approving(a, _, trusted) => Over(if trusted || r.Ok? then Reported(a, r) else Ok(None))
    case _ => p
  }

  function Decide(id: Ident, w: World): Phase {
    var trusted := if w.trustEmail then FirstTrusted(w, id.emails) else None;
    if trusted.Some? then Approving(trusted.value.0, [trusted.value.1], true)
    else if w.created.Some? then Approving(w.created.value, id.emails, false)
    else Over(Ok(None))
  }

  /** The steps between the calls. */
  function Onward(id: Ident, p: Phase, w: World): Phase {
    match p
    case Recording(a, _) => Over(Ok(Some(a)))
    case Attaching(a, i) => Recording(a, i + 1)
    case Looking(_) => Deciding
    case Deciding => Decide(id, w)
    case _ => p
  }

  /** The next step of a sign-in, on the store as it is by then. */
  function Next(b: Book, id: Ident, p: Phase, w: World, now: int): (Book, Phase) {
    match CallOf(id, p)
    case Lookup => (b, LookedUp(b, id, p))
    case Write(o) => (Step(b, o, now), Answered(p, Do(b, o, now)))
    case NoCall => (b, Onward(id, p, w))
  }

  /** Steps still to make, at most. */
  function Left(id: Ident, p: Phase): nat {
    var n := |id.emails|;
    match p
    case Starting => 2 * n + 5
    case Recording(_, i) => if i < n then 2 * (n - i) + 1 else 1
    case Attaching(_, i) => if i < n then 2 * (n - i) else 2
    case Looking(i) => if i < n then n - i + 3 else 3
    case Pinning(_) => 1
    case Deciding => 2
    case Approving(_, _, _) => 1
    case Over(_) => 0
  }

  /** All the steps of a sign-in, with nobody in between. */
  ghost function Undisturbed(b: Book, id: Ident, p: Phase, w: World, now: int): (Book, Result<Option<string>, IdError>)
    decreases Left(id, p)
  {
    if p.Over? then (b, p.r)
    else
      var (c, q) := Next(b, id, p, w, now);
      if Left(id, q) < Left(id, p) then Undisturbed(c, id, q, w, now) else (c, Ok(None))
  }

  lemma {:induction false} UndisturbedStep(b: Book, id: Ident, p: Phase, w: World, now: int)
    requires !p.Over? && Left(id, Next(b, id, p, w, now).1) < Left(id, p)
    ensures var (c, q) := Next(b, id, p, w, now); Undisturbed(b, id, p, w, now) == Undisturbed(c, id, q, w, now)
  {
  }

  /** One address of a recognised subject: a lookup, and an attach if nobody has it. */
  function Recorded(b: Book, a: string, e: string, now: int): Book {
    if ByEmail(b, e).Some? then b else Step(b, Attach(a, e), now)
  }

  lemma RecordingStep(b: Book, id: Ident, a: string, i: nat, w: World, now: int)
    requires i < |id.emails|
    ensures Undisturbed(b, id, Recording(a, i), w, now)
            == Undisturbed(Recorded(b, a, id.emails[i], now), id, Recording(a, i + 1), w, now)
  {
    hide Undisturbed, Step, ByEmail;
    UndisturbedStep(b, id, Recording(a, i), w, now);
    if ByEmail(b, id.emails[i]).None? {
      UndisturbedStep(b, id, Attaching(a, i), w, now);
    }
  }

  lemma RecordingEnd(b: Book, id: Ident, a: string, w: World, now: int)
    ensures Undisturbed(b, id, Recording(a, |id.emails|), w, now) == (b, Ok(Some(a)))
  {
    UndisturbedStep(b, id, Recording(a, |id.emails|), w, now);
    assert Undisturbed(b, id, Over(Ok(Some(a))), w, now) == (b, Ok(Some(a)));
  }

  lemma AttachAllNext(b: Book, a: string, emails: seq<string>, i: nat, now: int)
    requires i < |emails|
    ensures AttachAll(b, a, emails[..i + 1], now) == Recorded(AttachAll(b, a, emails[..i], now), a, emails[i], now)
  {
    assert emails[..i + 1][..i] == emails[..i];
  }

  lemma {:induction false} RecordingIsAttachAll(b: Book, c: Book, id: Ident, a: string, i: nat, w: World, now: int)
    requires i <= |id.emails| && c == AttachAll(b, a, id.emails[..i], now)
    ensures Undisturbed(c, id, Recording(a, i), w, now) == (AttachAll(b, a, id.emails, now), Ok(Some(a)))
    decreases |id.emails| - i
  {
    hide Undisturbed, Recorded, AttachAll;
    if i == |id.emails| {
      assert id.emails[..i] == id.emails;
      RecordingEnd(c, id, a, w, now);
    } else {
      RecordingStep(c, id, a, i, w, now);
      AttachAllNext(b, a, id.emails, i, now);
      RecordingIsAttachAll(b, AttachAll(b, a, id.emails[..i + 1], now), id, a, i + 1, w, now);
    }
  }

  lemma {:induction false} LookingIsFirstOwner(b: Book, id: Ident, i: nat, w: World, now: int)
    requires i <= |id.emails|
    ensures Undisturbed(b, id, Looking(i), w, now)
            == var o := FirstOwner(b, id.emails[i..]);
               Undisturbed(b, id, if o.Some? then Pinning(o.value) else Deciding, w, now)
    decreases |id.emails| - i
  {
    if i < |id.emails| {
      assert id.emails[i..][1..] == id.emails[i + 1..];
      LookingIsFirstOwner(b, id, i + 1, w, now);
    }
  }

  lemma {:induction false} LastCall(b: Book, id: Ident, p: Phase, w: World, now: int)
    requires p.Pinning? || p.Approving?
    ensures var (c, q) := Next(b, id, p, w, now);
            q.Over? && Undisturbed(b, id, p, w, now) == (c, q.r)
  {
    hide Pinned, Approved, Reported;
    var (c, q) := Next(b, id, p, w, now);
    assert Undisturbed(c, id, q, w, now) == (c, q.r);
  }

  /** With nobody in between, the steps of a sign-in come to exactly what ResolveIdentity does. */
  lemma UndisturbedIsResolved(b: Book, id: Ident, w: World, now: int)
    ensures Undisturbed(b, id, Starting, w, now) == Resolved(b, id, w, now)
  {
    hide BySubject, Pinned, Approved, FirstTrusted;
    var p := LookedUp(b, id, Starting);
    assert Undisturbed(b, id, Starting, w, now) == Undisturbed(b, id, p, w, now);
    if p.Recording? {
      assert id.emails[..0] == [];
      RecordingIsAttachAll(b, b, id, p.account, 0, w, now);
    } else {
      assert id.emails[0..] == id.emails;
      LookingIsFirstOwner(b, id, 0, w, now);
      var owner := FirstOwner(b, id.emails);
      if owner.Some? {
        LastCall(b, id, Pinning(owner.value), w, now);
      } else {
        var q := Decide(id, w);
        assert Undisturbed(b, id, Deciding, w, now) == Undisturbed(b, id, q, w, now);
        if q.Approving? {
          LastCall(b, id, q, w, now);
        }
      }
    }
  }

  // ------------------------------------------------------------- being bound

  /** The account a sign-in has been decided for. */
  function DecidedFor(p: Phase): Option<string> {
    match p
    case Recording(a, _) => Some(a)
    case Attaching(a, _) => Some(a)
    case Over(r) => if r.Ok? then r.value else None
    case _ => None
  }

  ghost predicate Bound(b: Book, a: string, id: Ident) { BySubject(b, id.issuer, id.subject) == Some(a) }

  /** Only forgetting an account takes its subject out of the index. */
  lemma BoundStays(b: Book, o: Op, now: int, a: string, id: Ident)
    requires Indexed(b) && Bound(b, a, id) && o != Forget(a)
    ensures Bound(Step(b, o, now), a, id)
  {
    hide NormalizeEmail, ValidEmail, ValidName, Clean, Adopt, Sorted;
  }

  /** Pinning or approving a pair for an account is the only way it gets bound to it. */
  predicate Binds(o: Op, a: string, id: Ident) {
    match o
    case Pin(x, i, s) => x == a && SubjectKey(i, s) == SubjectKey(id.issuer, id.subject)
    case Approve(x, i, s, _, _) => x == a && SubjectKey(i, s) == SubjectKey(id.issuer, id.subject)
    case _ => false
  }

  lemma UnboundStays(b: Book, o: Op, now: int, a: string, id: Ident)
    requires !Bound(b, a, id) && !Binds(o, a, id)
    ensures !Bound(Step(b, o, now), a, id)
  {
    hide NormalizeEmail, ValidEmail, ValidName, Clean, Adopt, Sorted, SubjectKey;
  }

  lemma ForgettingUnbinds(b: Book, now: int, a: string, id: Ident)
    requires Indexed(b)
    ensures !Bound(Step(b, Forget(a), now), a, id)
  {
    if a in b.byAccount {
      assert MappingOk(b, a);
    }
  }

  /** A write that lets a sign-in in leaves its account bound to its pair. */
  lemma LettingInBinds(b: Book, id: Ident, p: Phase, o: Op, now: int, a: string)
    requires Indexed(b) && id.subject != "" && CallOf(id, p) == Write(o)
    requires DecidedFor(p) != Some(a) && DecidedFor(Answered(p, Do(b, o, now))) == Some(a)
    ensures Bound(Step(b, o, now), a, id)
  {
    hide NormalizeEmail, ValidEmail, ValidName, Clean, Adopt, Sorted, AnotherHas;
    if p.Pinning? {
      assert p.account == a && MappingOk(b, a);
    }
  }

  /** One book binds an account to one pair. */
  lemma BoundToOnePair(b: Book, a: string, i: Ident, j: Ident)
    requires Indexed(b) && Bound(b, a, i) && Bound(b, a, j) && '\0' !in i.issuer && '\0' !in j.issuer
    ensures i.issuer == j.issuer && i.subject == j.subject
  {
    SubjectKeyIsInjective(i.issuer, i.subject, j.issuer, j.subject);
  }

  /** Of two people past the address lookup for one account, the one whose pin comes second is refused. */
  lemma SecondOfARaceIsRefused(b: Book, first: Ident, second: Ident, a: string, w: World, now: int, later: int)
    requires Indexed(b) && (first.issuer != second.issuer || first.subject != second.subject) && second.subject != ""
    requires Next(b, first, Pinning(a), w, now).1 == Over(Ok(Some(a)))
    ensures var c := Next(b, first, Pinning(a), w, now).0;
            Next(c, second, Pinning(a), w, later) == (c, Over(Ok(None)))
  {
  }

  /**
   A sign-in that was decided for an account goes on to attach its addresses to it.  If the account has been
   forgotten and approved for somebody else by then, they join that other person's record and answer for it.
   */
  lemma {:induction false} LateAddressJoinsTheOtherRecord(b: Book, id: Ident, a: string, i: nat, other: Ident, w: World, now: int)
    requires Indexed(b) && Bound(b, a, other) && other.subject != "" && i < |id.emails|
    requires ValidEmail(NormalizeEmail(id.emails[i])) && ByEmail(b, id.emails[i]) == None
    ensures var (c, q) := Next(b, id, Attaching(a, i), w, now);
            q == Recording(a, i + 1) && Bound(c, a, other) && ByEmail(c, id.emails[i]) == Some(a)
            && a in c.byAccount && NormalizeEmail(id.emails[i]) in c.byAccount[a].emails
  {
    var e := NormalizeEmail(id.emails[i]);
    BoundStays(b, Attach(a, id.emails[i]), now, a, other);
    SortedKeeps(b.byAccount[a].emails + [e]);
  }

  // ------------------------------------------------------- no subject at all

  /** A write for a pair without a subject binds nothing, and no account's pair changes. */
  lemma EmptySubjectBindsNothing(b: Book, id: Ident, p: Phase, o: Op, now: int)
    requires id.subject == "" && CallOf(id, p) == Write(o)
    ensures var c := Step(b, o, now);
            && c.bySubject == b.bySubject
            && (forall a | a in b.byAccount :: a in c.byAccount
                  && c.byAccount[a].issuer == b.byAccount[a].issuer && c.byAccount[a].subject == b.byAccount[a].subject)
            && (forall a | a in c.byAccount && a !in b.byAccount :: c.byAccount[a].subject == "")
    ensures p.Pinning? ==> Answered(p, Do(b, o, now)) == Over(Err(EmptySubject))
  {
    hide NormalizeEmail, ValidEmail, ValidName, Clean, Adopt, Sorted, AnotherHas;
  }

  // ---------------------------------------------------------------- the store

  /** The three maps, edited in place the way the operations edit them. */
  class Store {
    var byAccount: map<string, Mapping>
    var byEmail: map<string, string>
    var bySubject: map<string, string>

    function Contents(): Book
      reads this
    {
      Book(byAccount, byEmail, bySubject)
    }

    constructor ()
      ensures Contents() == EMPTY
    {
      byAccount, byEmail, bySubject := map[], map[], map[];
    }

    /** A refused file leaves the records before the bad one, and part of the bad one's addresses. */
    method Load(list: seq<Mapping>) returns (err: Option<IdError>)
      modifies this
      ensures (Contents(), err) == Loaded(list)
    {
      byAccount, byEmail, bySubject := map[], map[], map[];
      var i := 0;
      assert list[..0] == [];
      while i < |list|
        invariant 0 <= i <= |list|
        invariant Loaded(list[..i]) == (Contents(), None)
      {
        assert list[..i + 1][..i] == list[..i];
        err := LoadRecord(list[i]);
        if err.Some? {
          LoadedSticks(list, i + 1);
          return;
        }
        i := i + 1;
      }
      assert list[..i] == list;
      return None;
    }

    method LoadRecord(m: Mapping) returns (err: Option<IdError>)
      modifies this
      ensures (Contents(), err) == LoadOne(old(Contents()), m)
    {
      if !ValidName(m.account) {
        return Some(BadAccount);
      }
      if m.account in byAccount {
        return Some(Twice);
      }
      var emails: seq<string> := [];
      var i := 0;
      assert m.emails[..0] == [];
      while i < |m.emails|
        invariant 0 <= i <= |m.emails|
        invariant byAccount == old(byAccount) && bySubject == old(bySubject)
        invariant LoadEmails(old(byEmail), m.emails[..i], m.account) == (byEmail, emails, None)
      {
        assert m.emails[..i + 1][..i] == m.emails[..i];
        var e := NormalizeEmail(m.emails[i]);
        if !ValidEmail(e) {
          LoadEmailsStick(old(byEmail), m.emails, i + 1, m.account);
          return Some(BadAddress);
        }
        if e in byEmail {
          LoadEmailsStick(old(byEmail), m.emails, i + 1, m.account);
          return Some(Taken);
        }
        byEmail := byEmail[e := m.account];
        emails := emails + [e];
        i := i + 1;
      }
      assert m.emails[..i] == m.emails;
      if m.subject != "" {
        if Key(m) in bySubject {
          return Some(Taken);
        }
        bySubject := bySubject[Key(m) := m.account];
      }
      byAccount := byAccount[m.account := m.(emails := emails)];
      return None;
    }

    method Pin(account: string, issuer: string, subject: string, now: int) returns (r: Result<bool, IdError>)
      modifies this
      ensures var s := Pinned(old(Contents()), account, issuer, subject, now);
              && Contents() == (if s.Ok? then s.value.book else old(Contents()))
              && r == (if s.Ok? then Ok(s.value.changed) else Err(s.error))
    {
      if subject == "" {
        return Err(EmptySubject);
      }
      if account !in byAccount {
        return Err(NoMapping);
      }
      var m := byAccount[account];
      if m.subject != "" {
        return if m.subject == subject && m.issuer == issuer then Ok(false) else Err(SubjectPinned);
      }
      var k := SubjectKey(issuer, subject);
      if k in bySubject {
        return Err(Taken);
      }
      byAccount := byAccount[account := m.(issuer := issuer, subject := subject, updatedAt := now)];
      bySubject := bySubject[k := account];
      return Ok(true);
    }

    method AttachEmail(account: string, email: string, now: int) returns (r: Result<bool, IdError>)
      modifies this
      ensures var s := Attached(old(Contents()), account, email, now);
              && Contents() == (if s.Ok? then s.value.book else old(Contents()))
              && r == (if s.Ok? then Ok(s.value.changed) else Err(s.error))
    {
      var e := NormalizeEmail(email);
      if !ValidEmail(e) {
        return Err(BadAddress);
      }
      if account !in byAccount {
        return Err(NoMapping);
      }
      if e in byEmail {
        return if byEmail[e] == account then Ok(false) else Err(Taken);
      }
      var m := byAccount[account];
      byAccount := byAccount[account := m.(emails := Sorted(m.emails + [e]), updatedAt := now)];
      byEmail := byEmail[e := account];
      return Ok(true);
    }

    method CleanAll(emails: seq<string>) returns (r: Result<seq<string>, IdError>)
      ensures r == Clean(emails)
    {
      var clean: seq<string> := [];
      var i := 0;
      assert emails[..0] == [];
      while i < |emails|
        invariant 0 <= i <= |emails| && Clean(emails[..i]) == Ok(clean)
      {
        assert emails[..i + 1][..i] == emails[..i];
        var e := NormalizeEmail(emails[i]);
        if !ValidEmail(e) {
          CleanGivesAddresses(emails);
          return Err(BadAddress);
        }
        clean := clean + [e];
        i := i + 1;
      }
      assert emails[..i] == emails;
      return Ok(clean);
    }

    /** Every conflict is found before anything is written. */
    method Approve(account: string, issuer: string, subject: string, emails: seq<string>, who: string, now: int)
      returns (r: Result<Mapping, IdError>)
      modifies this
      ensures var s := Approved(old(Contents()), account, issuer, subject, emails, who, now);
              && Contents() == (if s.Ok? then s.value.book else old(Contents()))
              && (if s.Ok? then account in byAccount && r == Ok(byAccount[account]) else r == Err(s.error))
    {
      hide ValidName, ValidEmail, NormalizeEmail, Sorted, SubjectKey, Adopt, Clean;
      if !ValidName(account) {
        return Err(BadAccount);
      }
      var c := CleanAll(emails);
      if c.Err? {
        return Err(c.error);
      }
      var clean := c.value;
      var i := 0;
      while i < |clean|
        invariant 0 <= i <= |clean|
        invariant forall j | 0 <= j < i :: clean[j] in byEmail ==> byEmail[clean[j]] == account
      {
        if clean[i] in byEmail && byEmail[clean[i]] != account {
          assert clean[i] in clean;
          return Err(Taken);
        }
        i := i + 1;
      }
      assert !AnotherHas(Contents(), clean, account);
      var k := SubjectKey(issuer, subject);
      if subject != "" && k in bySubject && bySubject[k] != account {
        return Err(Taken);
      }
      var m := if account in byAccount then byAccount[account] else Mapping(account, [], "", "", who, now, 0);
      if subject != "" && m.subject != "" && (m.subject != subject || m.issuer != issuer) {
        return Err(SubjectPinned);
      }
      if subject != "" {
        m := m.(issuer := issuer, subject := subject);
        bySubject := bySubject[k := account];
      }
      var list := m.emails;
      i := 0;
      AdoptNothing(m.emails, byEmail, clean, account);
      while i < |clean|
        invariant 0 <= i <= |clean| && byAccount == old(byAccount)
        invariant bySubject == if subject != "" then old(bySubject)[k := account] else old(bySubject)
        invariant (list, byEmail) == Adopt(m.emails, old(byEmail), clean[..i], account)
      {
        AdoptNext(m.emails, old(byEmail), clean, i, account);
        if clean[i] !in byEmail {
          list := list + [clean[i]];
          byEmail := byEmail[clean[i] := account];
        }
        i := i + 1;
      }
      assert clean[..i] == clean;
      m := m.(emails := Sorted(list), updatedAt := now);
      if m.approvedBy == "" {
        m := m.(approvedBy := who, approvedAt := now);
      }
      byAccount := byAccount[account := m];
      return Ok(m);
    }

    method Forget(account: string) returns (r: Result<bool, IdError>)
      modifies this
      ensures var s := Forgotten(old(Contents()), account);
              && Contents() == (if s.Ok? then s.value.book else old(Contents()))
              && r == (if s.Ok? then Ok(true) else Err(s.error))
    {
      if account !in byAccount {
        return Err(NoMapping);
      }
      var m := byAccount[account];
      var i := 0;
      while i < |m.emails|
        invariant 0 <= i <= |m.emails|
        invariant byAccount == old(byAccount) && bySubject == old(bySubject)
        invariant byEmail == old(byEmail) - (set e | e in m.emails[..i])
      {
        byEmail := byEmail - {m.emails[i]};
        assert m.emails[..i + 1] == m.emails[..i] + [m.emails[i]];
        i := i + 1;
      }
      assert m.emails[..i] == m.emails;
      if m.subject != "" {
        bySubject := bySubject - {Key(m)};
      }
      byAccount := byAccount - {account};
      return Ok(true);
    }

    /** Filters the account's list in one pass; nothing is stored unless the address was on it. */
    method DetachEmail(account: string, email: string, now: int) returns (r: Result<bool, IdError>)
      modifies this
      ensures var s := Detached(old(Contents()), account, email, now);
              && Contents() == (if s.Ok? then s.value.book else old(Contents()))
              && r == (if s.Ok? then Ok(true) else Err(s.error))
    {
      hide NormalizeEmail, Drop;
      var e := NormalizeEmail(email);
      if account !in byAccount {
        return Err(NoMapping);
      }
      var m := byAccount[account];
      var kept: seq<string> := [];
      var found := false;
      var i := 0;
      DropNothing(e);
      assert m.emails[..0] == [];
      while i < |m.emails|
        invariant 0 <= i <= |m.emails|
        invariant Contents() == old(Contents())
        invariant kept == Drop(m.emails[..i], e) && (found <==> e in m.emails[..i])
      {
        DropNext(m.emails, i, e);
        if m.emails[i] == e {
          found := true;
        } else {
          kept := kept + [m.emails[i]];
        }
        i := i + 1;
      }
      assert m.emails[..i] == m.emails;
      assert found <==> e in m.emails;
      if !found {
        return Err(NoMapping);
      }
      byAccount := byAccount[account := m.(emails := kept, updatedAt := now)];
      byEmail := byEmail - {e};
      return Ok(true);
    }

    /** The sign-in decision over this store. */
    method ResolveIdentity(id: Ident, w: World, now: int) returns (r: Result<Option<string>, IdError>)
      modifies this
      ensures (Contents(), r) == Resolved(old(Contents()), id, w, now)
    {
      hide Pinned, Approved, Attached, ByEmail, BySubject, AccountFromEmail;
      var bound := BySubject(Contents(), id.issuer, id.subject);
      if bound.Some? {
        var i := 0;
        assert id.emails[..0] == [];
        while i < |id.emails|
          invariant 0 <= i <= |id.emails|
          invariant Contents() == AttachAll(old(Contents()), bound.value, id.emails[..i], now)
        {
          assert id.emails[..i + 1][..i] == id.emails[..i];
          if ByEmail(Contents(), id.emails[i]).None? {
            var _ := AttachEmail(bound.value, id.emails[i], now);
          }
          i := i + 1;
        }
        assert id.emails[..i] == id.emails;
        return Ok(bound);
      }
      var i := 0;
      while i < |id.emails|
        invariant 0 <= i <= |id.emails| && Contents() == old(Contents())
        invariant FirstOwner(Contents(), id.emails) == FirstOwner(Contents(), id.emails[i..])
      {
        var owner := ByEmail(Contents(), id.emails[i]);
        if owner.Some? {
          var p := Pin(owner.value, id.issuer, id.subject, now);
          if p.Err? {
            return if p.error.SubjectPinned? || p.error.Taken? then Ok(None) else Err(p.error);
          }
          return Ok(owner);
        }
        i := i + 1;
      }
      if w.trustEmail {
        i := 0;
        while i < |id.emails|
          invariant 0 <= i <= |id.emails| && Contents() == old(Contents())
          invariant FirstTrusted(w, id.emails) == FirstTrusted(w, id.emails[i..])
        {
          var a := AccountFromEmail(id.emails[i]);
          if a.Some? && w.known(a.value) {
            var p := Approve(a.value, id.issuer, id.subject, [id.emails[i]], "trust-email", now);
            if p.Err? {
              return if p.error.SubjectPinned? || p.error.Taken? then Ok(None) else Err(p.error);
            }
            return Ok(a);
          }
          i := i + 1;
        }
      }
      if w.created.None? {
        return Ok(None);
      }
      var p := Approve(w.created.value, id.issuer, id.subject, id.emails, "provision", now);
      return if p.Ok? then Ok(w.created) else Ok(None);
    }
  }

  lemma {:induction false} LoadedSticks(list: seq<Mapping>, n: nat)
    requires n <= |list| && Loaded(list[..n]).1.Some?
    ensures Loaded(list) == Loaded(list[..n])
    decreases |list|
  {
    if n < |list| {
      assert list[..|list| - 1][..n] == list[..n];
      LoadedSticks(list[..|list| - 1], n);
    } else {
      assert list[..n] == list;
    }
  }

  lemma {:induction false} LoadEmailsStick(x: map<string, string>, emails: seq<string>, n: nat, account: string)
    requires n <= |emails| && LoadEmails(x, emails[..n], account).2.Some?
    ensures LoadEmails(x, emails, account) == LoadEmails(x, emails[..n], account)
    decreases |emails|
  {
    if n < |emails| {
      assert emails[..|emails| - 1][..n] == emails[..n];
      LoadEmailsStick(x, emails[..|emails| - 1], n, account);
    } else {
      assert emails[..n] == emails;
    }
  }
}
