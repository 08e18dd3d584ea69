/**
 The message format between the server and a user's helper (internal/wire/codec.go).

 `Cur` is the decoder's cursor as a value: it reads fields left to right and latches
 the first error.  The class and methods at the end do the same in place.
 */
module Wire {
  // A frame is at most 64 KiB.  Numbers are big-endian, strings carry a 16-bit length and
  // values a 32-bit one, and a response's flag byte says which of its parts follow.

  import opened Common

  type byte = x: int | 0 <= x < 256
  type Bytes = seq<byte>

  const MAX_FRAME := 65536
  const U16 := 65536
  const U32 := 4294967296
  const U64 := 18446744073709551616

  type u8 = x: int | 0 <= x < 256
  type u32 = x: int | 0 <= x < U32
  type u64 = x: int | 0 <= x < U64
  type i64 = x: int | -(U64 / 2) <= x < U64 / 2

  datatype WireError = Short | Trailing | TooLarge | BadOp | FieldTooLong | BadFlags

  // ------------------------------------------------------------- big endian

  function Pow256(k: nat): (r: nat)
    ensures r >= 1
  {
    if k == 0 then 1 else 256 * Pow256(k - 1)
  }

  /** The k bytes of n, most significant first. */
  function BE(n: nat, k: nat): (r: Bytes)
    ensures |r| == k
  {
    if k == 0 then [] else BE(n / 256, k - 1) + [n % 256]
  }

  function UnBE(b: Bytes): nat {
    if b == [] then 0 else UnBE(b[..|b| - 1]) * 256 + b[|b| - 1]
  }

  lemma {:induction false} DecodeEncodedNumber(n: nat, k: nat)
    requires n < Pow256(k)
    ensures UnBE(BE(n, k)) == n
  {
    if k > 0 {
      DecodeEncodedNumber(n / 256, k - 1);
      assert BE(n, k)[..k - 1] == BE(n / 256, k - 1);
    }
  }

  lemma {:induction false} EncodeDecodedNumber(b: Bytes)
    ensures UnBE(b) < Pow256(|b|) && BE(UnBE(b), |b|) == b
  {
    if b != [] {
      EncodeDecodedNumber(b[..|b| - 1]);
      assert UnBE(b) / 256 == UnBE(b[..|b| - 1]) && UnBE(b) % 256 == b[|b| - 1];
    }
  }

  /** The most significant byte comes first. */
  lemma {:induction false} FirstByteWeighsMost(x: byte, rest: Bytes)
    ensures UnBE([x] + rest) == x * Pow256(|rest|) + UnBE(rest)
  {
    var b := [x] + rest;
    if rest == [] {
      assert b[..0] == [];
    } else {
      var front := rest[..|rest| - 1];
      FirstByteWeighsMost(x, front);
      assert b[..|b| - 1] == [x] + front && b[|b| - 1] == rest[|rest| - 1];
      var w := Pow256(|front|);
      assert Pow256(|rest|) == 256 * w;
      assert (x * w) * 256 == x * (256 * w);
    }
  }

  lemma Widths()
    ensures Pow256(1) == 256 && Pow256(2) == U16 && Pow256(4) == U32 && Pow256(8) == U64
  {
    assert Pow256(3) == 256 * Pow256(2) && Pow256(4) == 256 * Pow256(3);
    assert Pow256(5) == 256 * Pow256(4) && Pow256(6) == 256 * Pow256(5) && Pow256(7) == 256 * Pow256(6);
  }

  // ---------------------------------------------------------------- messages

  const OP_MAX := 11

  predicate ValidOp(op: u8) { 1 <= op <= OP_MAX }

  datatype Request = Request(id: u64, op: u8, flags: u32, mode: u32, path: Bytes, path2: Bytes, name: Bytes, value: Bytes)

  datatype Stat = Stat(mode: u32, uid: u32, gid: u32, size: i64, mtimeSec: i64, mtimeNsec: u32, ino: u64, nlink: u64)

  datatype DirEntry = DirEntry(name: Bytes, kind: u8, stat: Option<Stat>)

  const HAS_FD: u8 := 1
  const HAS_STAT: u8 := 2
  const HAS_ENTRIES: u8 := 4
  const HAS_MORE: u8 := 8
  const HAS_VALUE: u8 := 16

  datatype Response = Response(id: u64, has: u8, errno: u32, stat: Option<Stat>, entries: seq<DirEntry>, value: Bytes)

  predicate Test(has: u8, bit: u8)
    requires bit > 0
  {
    (has / bit) % 2 == 1
  }

  function Set(has: u8, bit: u8): u8
    requires bit in {2, 4, 8, 16}
  {
    if Test(has, bit) then has else has + bit
  }

  function Clear(has: u8, bit: u8): u8
    requires bit in {2, 4, 8, 16}
  {
    if Test(has, bit) then has - bit else has
  }

  // ---------------------------------------------------------------- encoding

  function EncStr(s: Bytes): Bytes { BE(|s|, 2) + s }

  function EncBytes(v: Bytes): Bytes { BE(|v|, 4) + v }

  /** Two's complement, as the conversion to an unsigned 64-bit integer does it. */
  function Unsigned(x: i64): u64 { if x < 0 then x + U64 else x }

  function Signed(x: u64): i64 { if x >= U64 / 2 then x - U64 else x }

  const STAT_SIZE := 48

  function EncStat(s: Stat): (r: Bytes)
    ensures |r| == STAT_SIZE
  {
    BE(s.mode, 4) + (BE(s.uid, 4) + (BE(s.gid, 4) + (BE(Unsigned(s.size), 8) + (BE(Unsigned(s.mtimeSec), 8)
    + (BE(s.mtimeNsec, 4) + (BE(s.ino, 8) + BE(s.nlink, 8)))))))
  }

  /** What an entry takes besides its name and its stat. */
  const ENTRY_FIXED := 4

  function EncEntry(e: DirEntry): (r: Bytes)
    ensures |r| == |e.name| + ENTRY_FIXED + (if e.stat.Some? then STAT_SIZE else 0)
  {
    EncStr(e.name) + (BE(e.kind, 1) + (if e.stat.Some? then BE(1, 1) + EncStat(e.stat.value) else BE(0, 1)))
  }

  function EncEntries(es: seq<DirEntry>): (r: Bytes)
    ensures |r| >= ENTRY_FIXED * |es|
  {
    if es == [] then [] else EncEntry(es[0]) + EncEntries(es[1..])
  }

  predicate NamesFit(es: seq<DirEntry>) { forall i | 0 <= i < |es| :: |es[i].name| < U16 }

  function RequestBytes(r: Request): Bytes {
    BE(r.id, 8) + (BE(r.op, 1) + (BE(r.flags, 4) + (BE(r.mode, 4)
    + (EncStr(r.path) + (EncStr(r.path2) + (EncStr(r.name) + EncBytes(r.value)))))))
  }

  function EncodeRequest(r: Request): Result<Bytes, WireError> {
    if !ValidOp(r.op) then Err(BadOp)
    else if |r.path| >= U16 || |r.path2| >= U16 || |r.name| >= U16 || |r.value| >= U32 then Err(FieldTooLong)
    else if |RequestBytes(r)| > MAX_FRAME then Err(TooLarge)
    else Ok(RequestBytes(r))
  }

  /** The flag byte made honest: HasStat follows the stat, HasEntries is only ever added. */
  function HonestFlags(r: Response): u8
    requires r.has < 32
  {
    var h := if r.stat.Some? then Set(r.has, HAS_STAT) else Clear(r.has, HAS_STAT);
    if r.entries != [] then Set(h, HAS_ENTRIES) else h
  }

  function StatPart(s: Option<Stat>): Bytes { if s.Some? then EncStat(s.value) else [] }

  function ListPart(has: u8, es: seq<DirEntry>): Bytes {
    if Test(has, HAS_ENTRIES) then BE(|es|, 4) + EncEntries(es) else []
  }

  function ValuePart(has: u8, v: Bytes): Bytes { if Test(has, HAS_VALUE) then EncBytes(v) else [] }

  function ResponseBytes(r: Response): Bytes
    requires r.has < 32
  {
    var has := HonestFlags(r);
    BE(r.id, 8) + (BE(r.errno, 4) + (BE(has, 1)
    + (StatPart(r.stat) + (ListPart(has, r.entries) + ValuePart(has, r.value)))))
  }

  function EncodeResponse(r: Response): Result<Bytes, WireError> {
    if r.has >= 32 then Err(BadFlags)
    else if |r.entries| >= U32 || !NamesFit(r.entries) || (Test(HonestFlags(r), HAS_VALUE) && |r.value| >= U32) then
      Err(FieldTooLong)
    else if |ResponseBytes(r)| > MAX_FRAME then Err(TooLarge)
    else Ok(ResponseBytes(r))
  }

  /** What survives the wire: honest flags, and a value only where the flags announce one. */
  function Normal(r: Response): Response
    requires r.has < 32
  {
    var has := HonestFlags(r);
    r.(has := has, value := if Test(has, HAS_VALUE) then r.value else [])
  }

  // ---------------------------------------------------------------- decoding

  datatype Cur = Cur(b: Bytes, err: Option<WireError>)

  function Fail(c: Cur, e: WireError): Cur { if c.err.Some? then c else c.(err := Some(e)) }

  function Take(c: Cur, n: nat): (r: (Cur, Bytes))
    ensures r.0.err.None? ==> |r.1| == n
  {
    if c.err.Some? then (c, [])
    else if n > |c.b| then (Fail(c, Short), [])
    else (Cur(c.b[n..], None), c.b[..n])
  }

  function Num(c: Cur, k: nat): (r: (Cur, nat))
    ensures r.1 < Pow256(k)
  {
    var (d, v) := Take(c, k);
    EncodeDecodedNumber(v);
    (d, if d.err.Some? then 0 else UnBE(v))
  }

  function Num8(c: Cur): (Cur, u8) { Widths(); Num(c, 1) }

  function Num16(c: Cur): (Cur, nat) { Num(c, 2) }

  function Num32(c: Cur): (Cur, u32) { Widths(); Num(c, 4) }

  function Num64(c: Cur): (Cur, u64) { Widths(); Num(c, 8) }

  function Str(c: Cur): (Cur, Bytes) {
    var (d, n) := Num16(c);
    Take(d, n)
  }

  function Blob(c: Cur): (Cur, Bytes) {
    var (d, n) := Num32(c);
    if n > |d.b| then (Fail(d, Short), []) else Take(d, n)
  }

  function DecStat(c: Cur): (Cur, Option<Stat>) {
    var (c1, mode) := Num32(c);
    var (c2, uid) := Num32(c1);
    var (c3, gid) := Num32(c2);
    var (c4, size) := Num64(c3);
    var (c5, sec) := Num64(c4);
    var (c6, nsec) := Num32(c5);
    var (c7, ino) := Num64(c6);
    var (c8, nlink) := Num64(c7);
    (c8, if c8.err.Some? then None else Some(Stat(mode, uid, gid, Signed(size), Signed(sec), nsec, ino, nlink)))
  }

  function Frame<T>(c: Cur, v: T): Result<T, WireError> {
    if c.err.Some? then Err(c.err.value) else if c.b != [] then Err(Trailing) else Ok(v)
  }

  /** The four variable-length fields of a request. */
  function DecFields(c: Cur): (Cur, Bytes, Bytes, Bytes, Bytes) {
    var (c5, path) := Str(c);
    var (c6, path2) := Str(c5);
    var (c7, name) := Str(c6);
    var (c8, value) := Blob(c7);
    (c8, path, path2, name, value)
  }

  function DecodeRequest(b: Bytes): Result<Request, WireError> {
    if |b| > MAX_FRAME then Err(TooLarge)
    else
      var (c1, id) := Num64(Cur(b, None));
      var (c2, op) := Num8(c1);
      var (c3, flags) := Num32(c2);
      var (c4, mode) := Num32(c3);
      var (c8, path, path2, name, value) := DecFields(c4);
      var r := Frame(c8, Request(id, op, flags, mode, path, path2, name, value));
      if r.Ok? && !ValidOp(op) then Err(BadOp) else r
  }

  /** The presence byte is strictly 0 or 1; anything else is a bad flag. */
  function DecPresent(c: Cur, present: u8): (Cur, Option<Stat>) {
    if present == 0 then (c, None)
    else if present == 1 then DecStat(c)
    else (Fail(c, BadFlags), None)
  }

  function DecEntry(c: Cur): (Cur, DirEntry) {
    var (c1, name) := Str(c);
    var (c2, kind) := Num8(c1);
    var (c3, present) := Num8(c2);
    var (c4, stat) := DecPresent(c3, present);
    (c4, DirEntry(name, kind, stat))
  }

  function DecEntries(c: Cur, n: nat): (Cur, seq<DirEntry>)
    decreases n
  {
    if n == 0 || c.err.Some? then (c, [])
    else
      var (d, e) := DecEntry(c);
      if d.err.Some? then (d, [])
      else
        var (f, es) := DecEntries(d, n - 1);
        (f, [e] + es)
  }

  function DecListing(c: Cur, has: u8): (Cur, seq<DirEntry>) {
    if !Test(has, HAS_ENTRIES) then (c, [])
    else
      var (d, n) := Num32(c);
      if n > |d.b| / 3 then (Fail(d, Short), []) else DecEntries(d, n)
  }

  function DecStatPart(c: Cur, has: u8): (Cur, Option<Stat>) {
    if Test(has, HAS_STAT) then DecStat(c) else (c, None)
  }

  function DecValue(c: Cur, has: u8): (Cur, Bytes) {
    if Test(has, HAS_VALUE) then Blob(c) else (c, [])
  }

  /** The parts a response carries only where its flags announce them. */
  function DecBody(c: Cur, has: u8): (Cur, Option<Stat>, seq<DirEntry>, Bytes) {
    var (c4, stat) := DecStatPart(c, has);
    var (c5, entries) := DecListing(c4, has);
    var (c6, value) := DecValue(c5, has);
    (c6, stat, entries, value)
  }

  function DecodeResponse(b: Bytes): Result<Response, WireError> {
    if |b| > MAX_FRAME then Err(TooLarge)
    else
      var (c1, id) := Num64(Cur(b, None));
      var (c2, errno) := Num32(c1);
      var (c3, has) := Num8(c2);
      if c3.err.None? && has >= 32 then Err(BadFlags)
      else
        var (c6, stat, entries, value) := DecBody(c3, has);
        Frame(c6, Response(id, has, errno, stat, entries, value))
  }

  lemma Associate(a: Bytes, b: Bytes, c: Bytes)
    ensures (a + b) + c == a + (b + c)
  {
  }

  // --------------------------------------- reading what was written, and back

  lemma NumReads(c: Cur, k: nat, n: nat, rest: Bytes)
    requires c == Cur(BE(n, k) + rest, None) && n < Pow256(k)
    ensures Num(c, k) == (Cur(rest, None), n)
  {
    DecodeEncodedNumber(n, k);
    assert c.b[..k] == BE(n, k) && c.b[k..] == rest;
  }

  lemma {:induction false} NumWasWritten(c: Cur, k: nat)
    requires Num(c, k).0.err.None?
    ensures var (d, n) := Num(c, k);
            c.err.None? && c.b == BE(n, k) + d.b
  {
    EncodeDecodedNumber(c.b[..k]);
  }

  lemma StrReads(c: Cur, s: Bytes, rest: Bytes)
    requires c == Cur(EncStr(s) + rest, None) && |s| < U16
    ensures Str(c) == (Cur(rest, None), s)
  {
    Widths();
    assert EncStr(s) + rest == BE(|s|, 2) + (s + rest);
    NumReads(c, 2, |s|, s + rest);
    assert (s + rest)[..|s|] == s && (s + rest)[|s|..] == rest;
  }

  lemma {:induction false} StrWasWritten(c: Cur)
    requires Str(c).0.err.None?
    ensures var (d, s) := Str(c);
            c.err.None? && |s| < U16 && c.b == EncStr(s) + d.b
  {
    Widths();
    NumWasWritten(c, 2);
  }

  lemma BlobReads(c: Cur, v: Bytes, rest: Bytes)
    requires c == Cur(EncBytes(v) + rest, None) && |v| < U32
    ensures Blob(c) == (Cur(rest, None), v)
  {
    Widths();
    assert EncBytes(v) + rest == BE(|v|, 4) + (v + rest);
    NumReads(c, 4, |v|, v + rest);
    assert (v + rest)[..|v|] == v && (v + rest)[|v|..] == rest;
  }

  lemma {:induction false} BlobWasWritten(c: Cur)
    requires Blob(c).0.err.None?
    ensures var (d, v) := Blob(c);
            c.err.None? && |v| < U32 && c.b == EncBytes(v) + d.b
  {
    NumWasWritten(c, 4);
  }

  lemma StatReads(c: Cur, s: Stat, rest: Bytes)
    requires c == Cur(EncStat(s) + rest, None)
    ensures DecStat(c) == (Cur(rest, None), Some(s))
  {
    Widths();
    var r8 := BE(s.nlink, 8) + rest;
    var r7 := BE(s.ino, 8) + r8;
    var r6 := BE(s.mtimeNsec, 4) + r7;
    var r5 := BE(Unsigned(s.mtimeSec), 8) + r6;
    var r4 := BE(Unsigned(s.size), 8) + r5;
    var r3 := BE(s.gid, 4) + r4;
    var r2 := BE(s.uid, 4) + r3;
    assert c.b == BE(s.mode, 4) + r2;
    NumReads(c, 4, s.mode, r2);
    NumReads(Cur(r2, None), 4, s.uid, r3);
    NumReads(Cur(r3, None), 4, s.gid, r4);
    NumReads(Cur(r4, None), 8, Unsigned(s.size), r5);
    NumReads(Cur(r5, None), 8, Unsigned(s.mtimeSec), r6);
    NumReads(Cur(r6, None), 4, s.mtimeNsec, r7);
    NumReads(Cur(r7, None), 8, s.ino, r8);
    NumReads(Cur(r8, None), 8, s.nlink, rest);
  }

  /** Half a stat: four numbers in a row. */
  ghost function FourNums(c: Cur, k1: nat, k2: nat, k3: nat, k4: nat): (Cur, nat, nat, nat, nat) {
    var (c1, n1) := Num(c, k1);
    var (c2, n2) := Num(c1, k2);
    var (c3, n3) := Num(c2, k3);
    var (c4, n4) := Num(c3, k4);
    (c4, n1, n2, n3, n4)
  }

  lemma {:induction false} FourWereWritten(c: Cur, k1: nat, k2: nat, k3: nat, k4: nat)
    requires FourNums(c, k1, k2, k3, k4).0.err.None?
    ensures var (d, n1, n2, n3, n4) := FourNums(c, k1, k2, k3, k4);
            c.err.None? && c.b == BE(n1, k1) + (BE(n2, k2) + (BE(n3, k3) + (BE(n4, k4) + d.b)))
  {
    var c1 := Num(c, k1).0;
    var c2 := Num(c1, k2).0;
    var c3 := Num(c2, k3).0;
    NumWasWritten(c3, k4);
    NumWasWritten(c2, k3);
    NumWasWritten(c1, k2);
    NumWasWritten(c, k1);
  }

  lemma StatThen(s: Stat, rest: Bytes)
    ensures EncStat(s) + rest == BE(s.mode, 4) + (BE(s.uid, 4) + (BE(s.gid, 4) + (BE(Unsigned(s.size), 8)
      + (BE(Unsigned(s.mtimeSec), 8) + (BE(s.mtimeNsec, 4) + (BE(s.ino, 8) + (BE(s.nlink, 8) + rest)))))))
  {
    var tail := BE(Unsigned(s.mtimeSec), 8) + (BE(s.mtimeNsec, 4) + (BE(s.ino, 8) + BE(s.nlink, 8)));
    assert tail + rest == BE(Unsigned(s.mtimeSec), 8) + (BE(s.mtimeNsec, 4) + (BE(s.ino, 8) + (BE(s.nlink, 8) + rest)));
  }

  lemma {:induction false} StatIsTwoHalves(c: Cur, s: Stat)
    requires DecStat(c).1 == Some(s)
    ensures var (c4, mode, uid, gid, size) := FourNums(c, 4, 4, 4, 8);
            mode == s.mode && uid == s.uid && gid == s.gid && size == Unsigned(s.size)
            && FourNums(c4, 8, 4, 8, 8) == (DecStat(c).0, Unsigned(s.mtimeSec), s.mtimeNsec, s.ino, s.nlink)
    ensures DecStat(c).0.err.None?
  {
  }

  lemma {:induction false} StatWasWritten(c: Cur)
    requires DecStat(c).0.err.None?
    ensures var (d, s) := DecStat(c);
            c.err.None? && s.Some? && c.b == EncStat(s.value) + d.b
  {
    var (d, s) := DecStat(c);
    StatIsTwoHalves(c, s.value);
    FourWereWritten(FourNums(c, 4, 4, 4, 8).0, 8, 4, 8, 8);
    FourWereWritten(c, 4, 4, 4, 8);
    StatThen(s.value, d.b);
  }

  /** What decoding makes of a frame followed by more bytes. */
  ghost function Verdict<T>(frame: Bytes, rest: Bytes, v: T): Result<T, WireError> {
    if |frame + rest| > MAX_FRAME then Err(TooLarge) else if rest != [] then Err(Trailing) else Ok(v)
  }

  lemma RequestThen(r: Request, rest: Bytes)
    requires EncodeRequest(r).Ok?
    ensures DecodeRequest(RequestBytes(r) + rest) == Verdict(RequestBytes(r), rest, r)
  {
    Widths();
    hide BE, UnBE, Num, Str, Blob, EncStr, EncBytes;
    var s8 := EncBytes(r.value) + rest;
    var s7 := EncStr(r.name) + s8;
    var s6 := EncStr(r.path2) + s7;
    var s5 := EncStr(r.path) + s6;
    var s4 := BE(r.mode, 4) + s5;
    var s3 := BE(r.flags, 4) + s4;
    var s2 := BE(r.op, 1) + s3;
    assert RequestBytes(r) + rest == BE(r.id, 8) + s2;
    NumReads(Cur(RequestBytes(r) + rest, None), 8, r.id, s2);
    NumReads(Cur(s2, None), 1, r.op, s3);
    NumReads(Cur(s3, None), 4, r.flags, s4);
    NumReads(Cur(s4, None), 4, r.mode, s5);
    StrReads(Cur(s5, None), r.path, s6);
    StrReads(Cur(s6, None), r.path2, s7);
    StrReads(Cur(s7, None), r.name, s8);
    BlobReads(Cur(s8, None), r.value, rest);
  }

  /** A frame built from a request decodes to that request. */
  lemma RequestRoundTrip(r: Request)
    requires EncodeRequest(r).Ok?
    ensures DecodeRequest(EncodeRequest(r).value) == Ok(r)
  {
    RequestThen(r, []);
    assert RequestBytes(r) + [] == RequestBytes(r);
  }

  lemma {:induction false} FieldsWereWritten(c: Cur)
    requires DecFields(c).0.err.None?
    ensures var (d, path, path2, name, value) := DecFields(c);
            c.err.None? && |path| < U16 && |path2| < U16 && |name| < U16 && |value| < U32
            && c.b == EncStr(path) + (EncStr(path2) + (EncStr(name) + (EncBytes(value) + d.b)))
  {
    var c5 := Str(c).0;
    var c6 := Str(c5).0;
    BlobWasWritten(Str(c6).0);
    StrWasWritten(c6);
    StrWasWritten(c5);
    StrWasWritten(c);
  }

  lemma {:induction false} RequestIsTwoHalves(b: Bytes, r: Request)
    requires DecodeRequest(b) == Ok(r)
    ensures var (c4, id, op, flags, mode) := FourNums(Cur(b, None), 8, 1, 4, 4);
            id == r.id && op == r.op && flags == r.flags && mode == r.mode
            && DecFields(c4) == (Cur([], None), r.path, r.path2, r.name, r.value)
    ensures |b| <= MAX_FRAME && ValidOp(r.op)
  {
  }

  lemma RequestWasWritten(b: Bytes, r: Request)
    requires DecodeRequest(b) == Ok(r)
    ensures ValidOp(r.op) && b == RequestBytes(r) && |b| <= MAX_FRAME
    ensures |r.path| < U16 && |r.path2| < U16 && |r.name| < U16 && |r.value| < U32
  {
    RequestIsTwoHalves(b, r);
    FieldsWereWritten(FourNums(Cur(b, None), 8, 1, 4, 4).0);
    FourWereWritten(Cur(b, None), 8, 1, 4, 4);
    assert EncBytes(r.value) + [] == EncBytes(r.value);
  }

  /** Encodings are canonical: an accepted frame is the encoding of what it decodes to. */
  lemma RequestIsCanonical(b: Bytes, r: Request)
    requires DecodeRequest(b) == Ok(r)
    ensures EncodeRequest(r) == Ok(b)
  {
    RequestWasWritten(b, r);
  }

  /** HasStat holds exactly when a stat follows, and a non-empty listing is announced. */
  lemma FlagsAreHonest(r: Response)
    requires r.has < 32
    ensures HonestFlags(r) < 32
    ensures Test(HonestFlags(r), HAS_STAT) <==> r.stat.Some?
    ensures r.entries != [] ==> Test(HonestFlags(r), HAS_ENTRIES)
    ensures HonestFlags(r) == r.has <==>
              (Test(r.has, HAS_STAT) <==> r.stat.Some?) && (r.entries != [] ==> Test(r.has, HAS_ENTRIES))
  {
    StatBit(r.has);
    EntriesBit(r.has);
    EntriesBit(Set(r.has, HAS_STAT));
    EntriesBit(Clear(r.has, HAS_STAT));
  }

  lemma StatBit(h: u8)
    requires h < 32
    ensures var s, c := Set(h, HAS_STAT), Clear(h, HAS_STAT);
            s < 32 && Test(s, HAS_STAT) && !Test(c, HAS_STAT)
            && Test(s, HAS_ENTRIES) == Test(c, HAS_ENTRIES) == Test(h, HAS_ENTRIES)
  {
  }

  lemma EntriesBit(h: u8)
    requires h < 32
    ensures var s := Set(h, HAS_ENTRIES);
            s < 32 && Test(s, HAS_ENTRIES) && Test(s, HAS_STAT) == Test(h, HAS_STAT)
  {
  }

  lemma EntryReads(c: Cur, e: DirEntry, rest: Bytes)
    requires c == Cur(EncEntry(e) + rest, None) && |e.name| < U16
    ensures DecEntry(c) == (Cur(rest, None), e)
  {
    Widths();
    var tail := if e.stat.Some? then EncStat(e.stat.value) + rest else rest;
    var present := if e.stat.Some? then 1 else 0;
    assert EncEntry(e) + rest == EncStr(e.name) + (BE(e.kind, 1) + (BE(present, 1) + tail));
    StrReads(c, e.name, BE(e.kind, 1) + (BE(present, 1) + tail));
    NumReads(Cur(BE(e.kind, 1) + (BE(present, 1) + tail), None), 1, e.kind, BE(present, 1) + tail);
    NumReads(Cur(BE(present, 1) + tail, None), 1, present, tail);
    if e.stat.Some? {
      StatReads(Cur(tail, None), e.stat.value, rest);
    }
  }

  lemma EntryThen(e: DirEntry, rest: Bytes)
    ensures EncEntry(e) + rest == EncStr(e.name) + (BE(e.kind, 1) + (BE(if e.stat.Some? then 1 else 0, 1)
                                                                     + (StatPart(e.stat) + rest)))
  {
    Associate(EncStr(e.name), BE(e.kind, 1) + (BE(if e.stat.Some? then 1 else 0, 1) + StatPart(e.stat)), rest);
  }

  lemma {:induction false} PresentWasWritten(c: Cur, present: u8)
    requires DecPresent(c, present).0.err.None?
    ensures var (d, stat) := DecPresent(c, present);
            c.err.None? && present == (if stat.Some? then 1 else 0) && c.b == StatPart(stat) + d.b
  {
    if present == 1 {
      StatWasWritten(c);
    }
  }

  lemma {:induction false} EntryWasWritten(c: Cur)
    requires DecEntry(c).0.err.None?
    ensures var (d, e) := DecEntry(c);
            c.err.None? && |e.name| < U16 && c.b == EncEntry(e) + d.b
  {
    var c1 := Str(c).0;
    var c2 := Num8(c1).0;
    var (c3, present) := Num8(c2);
    PresentWasWritten(c3, present);
    NumWasWritten(c2, 1);
    NumWasWritten(c1, 1);
    StrWasWritten(c);
    EntryThen(DecEntry(c).1, DecEntry(c).0.b);
  }

  lemma EntriesThen(e: DirEntry, es: seq<DirEntry>, rest: Bytes)
    requires |e.name| < U16 && NamesFit(es)
    ensures NamesFit([e] + es) && EncEntries([e] + es) + rest == EncEntry(e) + (EncEntries(es) + rest)
  {
    assert ([e] + es)[1..] == es;
  }

  lemma {:induction false} EntriesRead(c: Cur, es: seq<DirEntry>, rest: Bytes)
    requires c == Cur(EncEntries(es) + rest, None) && NamesFit(es)
    ensures DecEntries(c, |es|) == (Cur(rest, None), es)
    decreases |es|
  {
    if es == [] {
      assert c.b == rest;
    } else {
      var e, tail := es[0], es[1..];
      assert es == [e] + tail;
      EntriesThen(e, tail, rest);
      var d := Cur(EncEntries(tail) + rest, None);
      EntryReads(c, e, d.b);
      EntriesRead(d, tail, rest);
    }
  }

  lemma {:induction false} EntriesStep(c: Cur, n: nat)
    requires n > 0 && DecEntries(c, n).0.err.None?
    ensures var (d, e) := DecEntry(c);
            var (f, es) := DecEntries(d, n - 1);
            d.err.None? && DecEntries(c, n) == (f, [e] + es)
  {
  }

  lemma {:induction false} EntriesWereWritten(c: Cur, n: nat)
    requires DecEntries(c, n).0.err.None?
    ensures var (d, es) := DecEntries(c, n);
            c.err.None? && |es| == n && NamesFit(es) && c.b == EncEntries(es) + d.b
    decreases n
  {
    if n > 0 {
      var (c1, e) := DecEntry(c);
      var (d, es) := DecEntries(c1, n - 1);
      EntriesStep(c, n);
      EntriesWereWritten(c1, n - 1);
      EntryWasWritten(c);
      EntriesThen(e, es, d.b);
    }
  }

  lemma ListThen(es: seq<DirEntry>, rest: Bytes)
    ensures (BE(|es|, 4) + EncEntries(es)) + rest == BE(|es|, 4) + (EncEntries(es) + rest)
  {
    Associate(BE(|es|, 4), EncEntries(es), rest);
  }

  /** The decoder's guard on the declared count never refuses a listing that was written. */
  lemma ListingReads(c: Cur, has: u8, es: seq<DirEntry>, rest: Bytes)
    requires c == Cur(ListPart(has, es) + rest, None)
    requires NamesFit(es) && |es| < U32 && (es != [] ==> Test(has, HAS_ENTRIES))
    ensures DecListing(c, has) == (Cur(rest, None), es)
  {
    if Test(has, HAS_ENTRIES) {
      Widths();
      ListThen(es, rest);
      NumReads(c, 4, |es|, EncEntries(es) + rest);
      EntriesRead(Cur(EncEntries(es) + rest, None), es, rest);
    } else {
      assert c.b == rest;
    }
  }

  lemma {:induction false} ListingWasWritten(c: Cur, has: u8)
    requires DecListing(c, has).0.err.None?
    ensures var (d, es) := DecListing(c, has);
            c.err.None? && |es| < U32 && NamesFit(es) && c.b == ListPart(has, es) + d.b
            && (es != [] ==> Test(has, HAS_ENTRIES))
  {
    if Test(has, HAS_ENTRIES) {
      var (d, n) := Num32(c);
      EntriesWereWritten(d, n);
      NumWasWritten(c, 4);
      ListThen(DecEntries(d, n).1, DecEntries(d, n).0.b);
    }
  }

  predicate Announced(has: u8, stat: Option<Stat>, es: seq<DirEntry>, value: Bytes) {
    (Test(has, HAS_STAT) <==> stat.Some?) && (es != [] ==> Test(has, HAS_ENTRIES))
    && (!Test(has, HAS_VALUE) ==> value == [])
  }

  lemma BodyReads(c: Cur, has: u8, stat: Option<Stat>, es: seq<DirEntry>, value: Bytes, rest: Bytes)
    requires c == Cur(StatPart(stat) + (ListPart(has, es) + (ValuePart(has, value) + rest)), None)
    requires Announced(has, stat, es, value) && NamesFit(es) && |es| < U32 && |value| < U32
    ensures DecBody(c, has) == (Cur(rest, None), stat, es, value)
  {
    hide DecStat, Blob, DecListing, EncBytes, EncStat, ListPart, NamesFit;
    var s6 := ValuePart(has, value) + rest;
    var s5 := ListPart(has, es) + s6;
    if stat.Some? {
      StatReads(c, stat.value, s5);
    } else {
      assert c.b == s5;
    }
    ListingReads(Cur(s5, None), has, es, s6);
    if Test(has, HAS_VALUE) {
      BlobReads(Cur(s6, None), value, rest);
    } else {
      assert s6 == rest;
    }
  }

  lemma {:induction false} StatPartWasWritten(c: Cur, has: u8)
    requires DecStatPart(c, has).0.err.None?
    ensures var (d, stat) := DecStatPart(c, has);
            c.err.None? && (Test(has, HAS_STAT) <==> stat.Some?) && c.b == StatPart(stat) + d.b
  {
    if Test(has, HAS_STAT) {
      StatWasWritten(c);
    }
  }

  lemma {:induction false} ValueWasWritten(c: Cur, has: u8)
    requires DecValue(c, has).0.err.None?
    ensures var (d, v) := DecValue(c, has);
            c.err.None? && |v| < U32 && (!Test(has, HAS_VALUE) ==> v == []) && c.b == ValuePart(has, v) + d.b
  {
    if Test(has, HAS_VALUE) {
      BlobWasWritten(c);
    }
  }

  lemma {:induction false} BodyWasWritten(c: Cur, has: u8)
    requires DecBody(c, has).0.err.None?
    ensures var (d, stat, es, value) := DecBody(c, has);
            c.err.None? && Announced(has, stat, es, value) && NamesFit(es) && |es| < U32 && |value| < U32
            && c.b == StatPart(stat) + (ListPart(has, es) + (ValuePart(has, value) + d.b))
  {
    var c4 := DecStatPart(c, has).0;
    ValueWasWritten(DecListing(c4, has).0, has);
    ListingWasWritten(c4, has);
    StatPartWasWritten(c, has);
  }

  lemma ResponseLayout(r: Response, rest: Bytes)
    requires r.has < 32
    ensures var has := HonestFlags(r);
            ResponseBytes(r) + rest == BE(r.id, 8) + (BE(r.errno, 4) + (BE(has, 1) + (StatPart(r.stat)
              + (ListPart(has, r.entries) + (ValuePart(has, r.value) + rest)))))
  {
    hide HonestFlags, StatPart, ListPart, ValuePart;
    var has := HonestFlags(r);
    var v, l, s := ValuePart(has, r.value), ListPart(has, r.entries), StatPart(r.stat);
    Associate(l, v, rest);
    Associate(s, l + v, rest);
    Associate(BE(has, 1), s + (l + v), rest);
    Associate(BE(r.errno, 4), BE(has, 1) + (s + (l + v)), rest);
    Associate(BE(r.id, 8), BE(r.errno, 4) + (BE(has, 1) + (s + (l + v))), rest);
  }

  lemma ResponseThen(r: Response, rest: Bytes)
    requires EncodeResponse(r).Ok?
    ensures DecodeResponse(ResponseBytes(r) + rest) == Verdict(ResponseBytes(r), rest, Normal(r))
  {
    Widths();
    FlagsAreHonest(r);
    ResponseLayout(r, rest);
    hide HonestFlags, StatPart, ListPart, BE, UnBE, Num, DecBody;
    var n := Normal(r);
    var s4 := StatPart(n.stat) + (ListPart(n.has, n.entries) + (ValuePart(n.has, n.value) + rest));
    var s3 := BE(n.has, 1) + s4;
    var s2 := BE(r.errno, 4) + s3;
    var b := ResponseBytes(r) + rest;
    assert b == BE(r.id, 8) + s2;
    NumReads(Cur(b, None), 8, r.id, s2);
    NumReads(Cur(s2, None), 4, r.errno, s3);
    NumReads(Cur(s3, None), 1, n.has, s4);
    BodyReads(Cur(s4, None), n.has, n.stat, n.entries, n.value, rest);
  }

  /** A frame built from a response decodes to that response with honest flags and no unannounced value. */
  lemma ResponseRoundTrip(r: Response)
    requires EncodeResponse(r).Ok?
    ensures DecodeResponse(EncodeResponse(r).value) == Ok(Normal(r))
  {
    ResponseThen(r, []);
    assert ResponseBytes(r) + [] == ResponseBytes(r);
  }

  /** An accepted response frame is the encoding of what it decodes to, which is already normal. */
  lemma ResponseIsCanonical(b: Bytes)
    requires DecodeResponse(b).Ok?
    ensures var r := DecodeResponse(b).value;
            r.has < 32 && Normal(r) == r && EncodeResponse(r) == Ok(b)
  {
    var r := DecodeResponse(b).value;
    var c1 := Num64(Cur(b, None)).0;
    var c2 := Num32(c1).0;
    var c3 := Num8(c2).0;
    BodyWasWritten(c3, r.has);
    NumWasWritten(c2, 1);
    NumWasWritten(c1, 4);
    NumWasWritten(Cur(b, None), 8);
    FlagsAreHonest(r);
    assert ValuePart(r.has, r.value) + [] == ValuePart(r.has, r.value);
  }

  /** Two different frames never decode to the same response or to the same request. */
  lemma FramesAreDistinguished(a: Bytes, b: Bytes)
    ensures DecodeRequest(a).Ok? && DecodeRequest(a) == DecodeRequest(b) ==> a == b
    ensures DecodeResponse(a).Ok? && DecodeResponse(a) == DecodeResponse(b) ==> a == b
  {
    if DecodeRequest(a).Ok? && DecodeRequest(a) == DecodeRequest(b) {
      RequestIsCanonical(a, DecodeRequest(a).value);
      RequestIsCanonical(b, DecodeRequest(a).value);
    }
    if DecodeResponse(a).Ok? && DecodeResponse(a) == DecodeResponse(b) {
      ResponseIsCanonical(a);
      ResponseIsCanonical(b);
    }
  }

  /** No accepted frame is a proper prefix of another: whatever is left over is refused. */
  lemma LeftOverBytesAreRefused(b: Bytes, rest: Bytes)
    requires rest != []
    ensures DecodeRequest(b).Ok? ==> DecodeRequest(b + rest) == Err(if |b| + |rest| > MAX_FRAME then TooLarge else Trailing)
    ensures DecodeResponse(b).Ok? ==> DecodeResponse(b + rest) == Err(if |b| + |rest| > MAX_FRAME then TooLarge else Trailing)
  {
    hide DecodeRequest, DecodeResponse;
    if DecodeRequest(b).Ok? {
      RequestIsCanonical(b, DecodeRequest(b).value);
      RequestThen(DecodeRequest(b).value, rest);
    }
    if DecodeResponse(b).Ok? {
      ResponseIsCanonical(b);
      ResponseThen(DecodeResponse(b).value, rest);
    }
  }

  /** A request can be sent exactly if its operation is known and its fields and 27 more bytes fit in a frame. */
  lemma RequestEncodesIff(r: Request)
    ensures var size := 27 + |r.path| + |r.path2| + |r.name| + |r.value|;
            && (EncodeRequest(r).Ok? <==> ValidOp(r.op) && size <= MAX_FRAME)
            && (EncodeRequest(r) == Err(BadOp) <==> !ValidOp(r.op))
            && |RequestBytes(r)| == size
  {
  }

  function EntriesSize(es: seq<DirEntry>): nat {
    if es == [] then 0 else |es[0].name| + (if es[0].stat.Some? then 52 else 4) + EntriesSize(es[1..])
  }

  lemma {:induction false} EntriesTake(es: seq<DirEntry>)
    ensures |EncEntries(es)| == EntriesSize(es) && (EntriesSize(es) < U16 ==> NamesFit(es))
  {
    if es != [] {
      EntriesTake(es[1..]);
      assert es == [es[0]] + es[1..];
    }
  }

  /** A response can be sent exactly if its flags are known ones and everything the flags announce fits in a frame. */
  lemma ResponseEncodesIff(r: Response)
    ensures var listed := r.entries != [] || Test(r.has, HAS_ENTRIES);
            var size := 13 + (if r.stat.Some? then 48 else 0) + (if listed then 4 + EntriesSize(r.entries) else 0)
                        + (if Test(r.has, HAS_VALUE) then 4 + |r.value| else 0);
            && (EncodeResponse(r).Ok? <==> r.has < 32 && size <= MAX_FRAME)
            && (EncodeResponse(r) == Err(BadFlags) <==> r.has >= 32)
  {
    if r.has < 32 {
      EntriesTake(r.entries);
      FlagsAreHonest(r);
      ValueBitStays(r);
      hide EncEntries, EntriesSize, HonestFlags;
      assert |r.entries| <= |EncEntries(r.entries)|;
    }
  }

  lemma ValueBitStays(r: Response)
    requires r.has < 32
    ensures Test(HonestFlags(r), HAS_VALUE) == Test(r.has, HAS_VALUE)
    ensures Test(HonestFlags(r), HAS_ENTRIES) <==> r.entries != [] || Test(r.has, HAS_ENTRIES)
  {
    StatBit(r.has);
    EntriesBit(r.has);
  }

  /** What follows a place in a frame. */
  lemma Part(f: Bytes, at: nat, x: Bytes, rest: Bytes)
    requires at <= |f| && f[at..] == x + rest
    ensures at + |x| <= |f| && f[at..at + |x|] == x && f[at + |x|..] == rest
  {
    assert |f| - at == |x| + |rest|;
    assert f[at..at + |x|] == (x + rest)[..|x|];
    assert f[at + |x|..] == (x + rest)[|x|..];
  }

  lemma Parts(f: Bytes, a: Bytes, b: Bytes, c: Bytes, d: Bytes, e: Bytes, g: Bytes, rest: Bytes)
    requires f == a + (b + (c + (d + ((e + g) + rest)))) && |a| == 8 && |b| == 1 && |c| == 4 && |d| == 4 && |e| == 2
    ensures |f| == 19 + |g| + |rest| && f[0..8] == a && [f[8]] == b && f[9..13] == c && f[13..17] == d && f[17..19] == e
    ensures f[19..19 + |g|] == g
  {
    Part(f, 0, a, b + (c + (d + ((e + g) + rest))));
    Part(f, 8, b, c + (d + ((e + g) + rest)));
    Part(f, 9, c, d + ((e + g) + rest));
    Part(f, 13, d, (e + g) + rest);
    Associate(e, g, rest);
    Part(f, 17, e, g + rest);
    Part(f, 19, g, rest);
    assert f[8..9] == [f[8]];
  }

  /** Where the fields of a request are in its frame. */
  lemma RequestLayout(r: Request)
    requires |r.path| < U16
    ensures var f := RequestBytes(r);
            && |f| >= 19 + |r.path| && UnBE(f[0..8]) == r.id && f[8] == r.op && UnBE(f[9..13]) == r.flags && UnBE(f[13..17]) == r.mode
            && UnBE(f[17..19]) == |r.path| && f[19..19 + |r.path|] == r.path
  {
    hide BE, UnBE, EncBytes, Pow256;
    Widths();
    DecodeEncodedNumber(r.id, 8);
    DecodeEncodedNumber(r.flags, 4);
    DecodeEncodedNumber(r.mode, 4);
    DecodeEncodedNumber(|r.path|, 2);
    OneByte(r.op);
    var rest := EncStr(r.path2) + (EncStr(r.name) + EncBytes(r.value));
    assert RequestBytes(r) == BE(r.id, 8) + (BE(r.op, 1) + (BE(r.flags, 4) + (BE(r.mode, 4) + ((BE(|r.path|, 2) + r.path) + rest))));
    Parts(RequestBytes(r), BE(r.id, 8), BE(r.op, 1), BE(r.flags, 4), BE(r.mode, 4), BE(|r.path|, 2), r.path, rest);
  }

  lemma OneByte(x: u8)
    ensures BE(x, 1) == [x]
  {
    assert BE(x / 256, 0) == [];
  }

  lemma StatParts(f: Bytes, a: Bytes, b: Bytes, c: Bytes, d: Bytes, e: Bytes, g: Bytes, h: Bytes, i: Bytes)
    requires f == a + (b + (c + (d + (e + (g + (h + i))))))
    requires |a| == |b| == |c| == |g| == 4 && |d| == |e| == |h| == |i| == 8
    ensures |f| == 48 && f[0..4] == a && f[4..8] == b && f[8..12] == c && f[12..20] == d
    ensures f[20..28] == e && f[28..32] == g && f[32..40] == h && f[40..48] == i
  {
    Part(f, 0, a, b + (c + (d + (e + (g + (h + i))))));
    Part(f, 4, b, c + (d + (e + (g + (h + i)))));
    Part(f, 8, c, d + (e + (g + (h + i))));
    Part(f, 12, d, e + (g + (h + i)));
    Part(f, 20, e, g + (h + i));
    Part(f, 28, g, h + i);
    Part(f, 32, h, i);
    assert f[40..48] == f[40..];
  }

  /** Where the fields of a stat are. */
  lemma StatLayout(s: Stat)
    ensures var f := EncStat(s);
            && UnBE(f[0..4]) == s.mode && UnBE(f[4..8]) == s.uid && UnBE(f[8..12]) == s.gid && UnBE(f[12..20]) == s.size % U64
            && UnBE(f[20..28]) == s.mtimeSec % U64 && UnBE(f[28..32]) == s.mtimeNsec && UnBE(f[32..40]) == s.ino
            && UnBE(f[40..48]) == s.nlink
  {
    hide BE, UnBE, Pow256;
    Widths();
    DecodeEncodedNumber(s.mode, 4);
    DecodeEncodedNumber(s.uid, 4);
    DecodeEncodedNumber(s.gid, 4);
    DecodeEncodedNumber(Unsigned(s.size), 8);
    DecodeEncodedNumber(Unsigned(s.mtimeSec), 8);
    DecodeEncodedNumber(s.mtimeNsec, 4);
    DecodeEncodedNumber(s.ino, 8);
    DecodeEncodedNumber(s.nlink, 8);
    StatParts(EncStat(s), BE(s.mode, 4), BE(s.uid, 4), BE(s.gid, 4), BE(Unsigned(s.size), 8), BE(Unsigned(s.mtimeSec), 8),
              BE(s.mtimeNsec, 4), BE(s.ino, 8), BE(s.nlink, 8));
  }

  // ------------------------------------------------ the buffer and the cursor

  /** Reading n entries from `first` is having read `es` and reading k more from `now`. */
  ghost predicate Split(first: Cur, n: nat, es: seq<DirEntry>, now: Cur, k: nat) {
    DecEntries(first, n) == (DecEntries(now, k).0, es + DecEntries(now, k).1)
  }

  lemma SplitStart(first: Cur, n: nat)
    ensures Split(first, n, [], first, n)
  {
    assert [] + DecEntries(first, n).1 == DecEntries(first, n).1;
  }

  lemma SplitEnd(first: Cur, n: nat, es: seq<DirEntry>, now: Cur, k: nat)
    requires Split(first, n, es, now, k) && (k == 0 || now.err.Some?)
    ensures DecEntries(first, n) == (now, es)
  {
    assert es + [] == es;
  }

  lemma SplitStep(first: Cur, n: nat, es: seq<DirEntry>, now: Cur, k: nat)
    requires Split(first, n, es, now, k) && k > 0 && now.err.None?
    ensures DecEntry(now).0.err.None? ==> Split(first, n, es + [DecEntry(now).1], DecEntry(now).0, k - 1)
    ensures DecEntry(now).0.err.Some? ==> DecEntries(first, n) == (DecEntry(now).0, es)
  {
    var (d, e) := DecEntry(now);
    var rest := DecEntries(d, k - 1).1;
    assert es + ([e] + rest) == (es + [e]) + rest;
    assert es + [] == es;
  }

  /** Reads fields left to right in place, latching the first error. */
  class Cursor {
    var b: Bytes
    var err: Option<WireError>

    ghost function Now(): Cur
      reads this
    {
      Cur(b, err)
    }

    constructor (frame: Bytes)
      ensures Now() == Cur(frame, None)
    {
      b, err := frame, None;
    }

    method Next(n: nat) returns (v: Bytes)
      modifies this
      ensures (Now(), v) == Take(old(Now()), n)
    {
      if err.Some? { return []; }
      if n > |b| {
        err := Some(Short);
        return [];
      }
      v := b[..n];
      b := b[n..];
    }

    method NextNum(k: nat) returns (n: nat)
      modifies this
      ensures (Now(), n) == Num(old(Now()), k)
    {
      var v := Next(k);
      n := if err.Some? then 0 else UnBE(v);
    }

    method NextStr() returns (s: Bytes)
      modifies this
      ensures (Now(), s) == Str(old(Now()))
    {
      var n := NextNum(2);
      s := Next(n);
    }

    method NextBytes() returns (v: Bytes)
      modifies this
      ensures (Now(), v) == Blob(old(Now()))
    {
      var n := NextNum(4);
      if err.None? && n > |b| {
        err := Some(Short);
        return [];
      }
      v := Next(n);
    }

    method NextStat() returns (s: Option<Stat>)
      modifies this
      ensures (Now(), s) == DecStat(old(Now()))
    {
      Widths();
      var mode := NextNum(4);
      var uid := NextNum(4);
      var gid := NextNum(4);
      var size := NextNum(8);
      var sec := NextNum(8);
      var nsec := NextNum(4);
      var ino := NextNum(8);
      var nlink := NextNum(8);
      if err.Some? { return None; }
      s := Some(Stat(mode, uid, gid, Signed(size), Signed(sec), nsec, ino, nlink));
    }

    method Refuse(e: WireError)
      modifies this
      ensures Now() == Fail(old(Now()), e)
    {
      if err.None? { err := Some(e); }
    }

    /** A presence byte other than 0 and 1 ends the decoding: nothing is read past a latched error. */
    method NextEntry() returns (e: DirEntry)
      modifies this
      ensures (Now(), e) == DecEntry(old(Now()))
    {
      Widths();
      var name := NextStr();
      var kind := NextNum(1);
      var present := NextNum(1);
      var stat: Option<Stat> := None;
      match present {
        case 0 =>
        case 1 => stat := NextStat();
        case _ => Refuse(BadFlags);
      }
      e := DirEntry(name, kind, stat);
    }

    method NextEntries(n: nat) returns (es: seq<DirEntry>)
      modifies this
      ensures (Now(), es) == DecEntries(old(Now()), n)
    {
      hide DecEntry;
      es := [];
      ghost var first, now := Now(), Now();
      SplitStart(first, n);
      var i := 0;
      while i < n && err.None?
        invariant 0 <= i <= n && now == Now()
        invariant Split(first, n, es, now, n - i)
      {
        SplitStep(first, n, es, now, n - i);
        var e := NextEntry();
        now := DecEntry(now).0;
        if err.Some? { return; }
        es := es + [e];
        i := i + 1;
      }
      SplitEnd(first, n, es, now, n - i);
    }

    method NextListing() returns (es: seq<DirEntry>)
      modifies this
      ensures (Now(), es) == DecListing(old(Now()), HAS_ENTRIES)
    {
      var n := NextNum(4);
      if n > |b| / 3 {
        Refuse(Short);
        return [];
      }
      es := NextEntries(n);
    }

    method NextBody(has: u8) returns (stat: Option<Stat>, entries: seq<DirEntry>, value: Bytes)
      modifies this
      ensures (Now(), stat, entries, value) == DecBody(old(Now()), has)
    {
      stat, entries, value := None, [], [];
      if Test(has, HAS_STAT) {
        stat := NextStat();
      }
      if Test(has, HAS_ENTRIES) {
        assert Test(HAS_ENTRIES, HAS_ENTRIES);
        entries := NextListing();
      }
      if Test(has, HAS_VALUE) {
        value := NextBytes();
      }
    }

    method Done() returns (e: Option<WireError>)
      ensures e == if err.Some? then err else if b != [] then Some(Trailing) else None
    {
      e := err;
      if err.None? && |b| != 0 { e := Some(Trailing); }
    }
  }

  method UnmarshalRequest(b: Bytes) returns (r: Result<Request, WireError>)
    ensures r == DecodeRequest(b)
  {
    if |b| > MAX_FRAME { return Err(TooLarge); }
    Widths();
    var c := new Cursor(b);
    var id := c.NextNum(8);
    var op := c.NextNum(1);
    var flags := c.NextNum(4);
    var mode := c.NextNum(4);
    var path := c.NextStr();
    var path2 := c.NextStr();
    var name := c.NextStr();
    var value := c.NextBytes();
    var e := c.Done();
    if e.Some? { return Err(e.value); }
    if !ValidOp(op) { return Err(BadOp); }
    r := Ok(Request(id, op, flags, mode, path, path2, name, value));
  }

  method UnmarshalResponse(b: Bytes) returns (r: Result<Response, WireError>)
    ensures r == DecodeResponse(b)
  {
    if |b| > MAX_FRAME { return Err(TooLarge); }
    Widths();
    var c := new Cursor(b);
    var id := c.NextNum(8);
    var errno := c.NextNum(4);
    var has := c.NextNum(1);
    if c.err.None? && has >= 32 { return Err(BadFlags); }
    var stat, entries, value := c.NextBody(has);
    var e := c.Done();
    if e.Some? { return Err(e.value); }
    r := Ok(Response(id, has, errno, stat, entries, value));
  }

  method AppendStr(b: Bytes, s: Bytes) returns (r: Result<Bytes, WireError>)
    ensures r == if |s| >= U16 then Err(FieldTooLong) else Ok(b + EncStr(s))
  {
    if |s| >= U16 { return Err(FieldTooLong); }
    r := Ok(b + BE(|s|, 2) + s);
    Associate(b, BE(|s|, 2), s);
  }

  method AppendBytes(b: Bytes, v: Bytes) returns (r: Result<Bytes, WireError>)
    ensures r == if |v| >= U32 then Err(FieldTooLong) else Ok(b + EncBytes(v))
  {
    if |v| >= U32 { return Err(FieldTooLong); }
    r := Ok(b + BE(|v|, 4) + v);
    Associate(b, BE(|v|, 4), v);
  }

  method AppendStat(b: Bytes, s: Stat) returns (r: Bytes)
    ensures r == b + EncStat(s)
  {
    r := b;
    r := r + BE(s.mode, 4);
    r := r + BE(s.uid, 4);
    r := r + BE(s.gid, 4);
    r := r + BE(Unsigned(s.size), 8);
    r := r + BE(Unsigned(s.mtimeSec), 8);
    r := r + BE(s.mtimeNsec, 4);
    r := r + BE(s.ino, 8);
    r := r + BE(s.nlink, 8);
  }

  method MarshalRequest(r: Request) returns (res: Result<Bytes, WireError>)
    ensures res == EncodeRequest(r)
  {
    if !ValidOp(r.op) { return Err(BadOp); }
    var b := BE(r.id, 8);
    b := b + BE(r.op, 1);
    b := b + BE(r.flags, 4);
    b := b + BE(r.mode, 4);
    var fields := [r.path, r.path2, r.name];
    ghost var head := b;
    for i := 0 to 3
      invariant forall j | 0 <= j < i :: |fields[j]| < U16
      invariant b == head + EncStrs(fields[..i])
    {
      res := AppendStr(b, fields[i]);
      if res.Err? { return; }
      b := res.value;
      EncStrsSnoc(fields[..i], fields[i]);
      assert fields[..i + 1] == fields[..i] + [fields[i]];
      Associate(head, EncStrs(fields[..i]), EncStr(fields[i]));
    }
    assert fields[..3] == fields && fields == [r.path, r.path2, r.name];
    assert fields[0] == r.path && fields[1] == r.path2 && fields[2] == r.name;
    res := AppendBytes(b, r.value);
    if res.Err? { return; }
    b := res.value;
    RequestAssembled(r);
    if |b| > MAX_FRAME { return Err(TooLarge); }
    res := Ok(b);
  }

  method AppendEntry(b: Bytes, e: DirEntry) returns (r: Result<Bytes, WireError>)
    ensures r == if |e.name| >= U16 then Err(FieldTooLong) else Ok(b + EncEntry(e))
  {
    r := AppendStr(b, e.name);
    if r.Err? { return; }
    var out := r.value + BE(e.kind, 1);
    if e.stat.Some? {
      out := out + BE(1, 1);
      out := AppendStat(out, e.stat.value);
    } else {
      out := out + BE(0, 1);
      assert out + StatPart(e.stat) == out;
    }
    EntryAssembled(b, e);
    r := Ok(out);
  }

  lemma EntryAssembled(b: Bytes, e: DirEntry)
    ensures b + EncEntry(e) == (((b + EncStr(e.name)) + BE(e.kind, 1)) + BE(if e.stat.Some? then 1 else 0, 1))
                               + StatPart(e.stat)
  {
    Associate(b, EncStr(e.name), BE(e.kind, 1) + (BE(if e.stat.Some? then 1 else 0, 1) + StatPart(e.stat)));
  }

  lemma EntriesFrom(b: Bytes, es: seq<DirEntry>, i: nat)
    requires i < |es|
    ensures (b + EncEntry(es[i])) + EncEntries(es[i + 1..]) == b + EncEntries(es[i..])
  {
    assert es[i..][1..] == es[i + 1..];
  }

  method AppendEntries(b: Bytes, es: seq<DirEntry>) returns (r: Result<Bytes, WireError>)
    ensures r == if NamesFit(es) then Ok(b + EncEntries(es)) else Err(FieldTooLong)
  {
    hide EncEntry;
    r := Ok(b);
    for i := 0 to |es|
      invariant NamesFit(es[..i])
      invariant r.Ok? && r.value + EncEntries(es[i..]) == b + EncEntries(es)
    {
      EntriesFrom(r.value, es, i);
      r := AppendEntry(r.value, es[i]);
      if r.Err? { return; }
    }
    assert es[..|es|] == es;
    assert r.value + EncEntries(es[|es|..]) == r.value;
  }

  method MarshalResponse(r: Response) returns (res: Result<Bytes, WireError>)
    ensures res == EncodeResponse(r)
  {
    var b := BE(r.id, 8);
    b := b + BE(r.errno, 4);
    if r.has >= 32 { return Err(BadFlags); }
    var has := if r.stat.Some? then Set(r.has, HAS_STAT) else Clear(r.has, HAS_STAT);
    if |r.entries| > 0 {
      has := Set(has, HAS_ENTRIES);
    }
    FlagsAreHonest(r);
    b := b + BE(has, 1);
    ghost var head := b;
    if Test(has, HAS_STAT) {
      b := AppendStat(b, r.stat.value);
    }
    assert b == head + StatPart(r.stat);
    if Test(has, HAS_ENTRIES) {
      if |r.entries| >= U32 { return Err(FieldTooLong); }
      ghost var start := b;
      b := b + BE(|r.entries|, 4);
      res := AppendEntries(b, r.entries);
      if res.Err? { return; }
      b := res.value;
      Associate(start, BE(|r.entries|, 4), EncEntries(r.entries));
    }
    assert b == head + StatPart(r.stat) + ListPart(has, r.entries);
    if Test(has, HAS_VALUE) {
      res := AppendBytes(b, r.value);
      if res.Err? { return; }
      b := res.value;
    }
    assert b == head + StatPart(r.stat) + ListPart(has, r.entries) + ValuePart(has, r.value);
    ResponseAssembled(r);
    if |b| > MAX_FRAME { return Err(TooLarge); }
    res := Ok(b);
  }

  lemma Leftwards(a: Bytes, b: Bytes, c: Bytes, d: Bytes, e: Bytes, f: Bytes)
    ensures a + (b + (c + (d + (e + f)))) == ((((a + b) + c) + d) + e) + f
  {
    Associate(a, b, c + (d + (e + f)));
    Associate(a + b, c, d + (e + f));
    Associate((a + b) + c, d, e + f);
    Associate(((a + b) + c) + d, e, f);
  }

  lemma ResponseAssembled(r: Response)
    requires r.has < 32
    ensures var has := HonestFlags(r);
            ResponseBytes(r) == ((((BE(r.id, 8) + BE(r.errno, 4)) + BE(has, 1)) + StatPart(r.stat))
                                 + ListPart(has, r.entries)) + ValuePart(has, r.value)
  {
    hide HonestFlags, StatPart, ListPart, ValuePart, BE;
    var has := HonestFlags(r);
    Leftwards(BE(r.id, 8), BE(r.errno, 4), BE(has, 1), StatPart(r.stat), ListPart(has, r.entries), ValuePart(has, r.value));
  }

  function EncStrs(ss: seq<Bytes>): Bytes {
    if ss == [] then [] else EncStr(ss[0]) + EncStrs(ss[1..])
  }

  lemma ThreeStrs(p: Bytes, q: Bytes, n: Bytes)
    ensures EncStrs([p, q, n]) == EncStr(p) + (EncStr(q) + EncStr(n))
  {
    var none: seq<Bytes> := [];
    assert [p, q, n][1..] == [q, n] && [q, n][1..] == [n] && [n][1..] == none;
    assert EncStrs([n]) == EncStr(n);
    assert EncStrs([q, n]) == EncStr(q) + EncStr(n);
  }

  lemma RequestAssembled(r: Request)
    ensures RequestBytes(r) == ((((BE(r.id, 8) + BE(r.op, 1)) + BE(r.flags, 4)) + BE(r.mode, 4))
                                + EncStrs([r.path, r.path2, r.name])) + EncBytes(r.value)
  {
    ThreeStrs(r.path, r.path2, r.name);
    var tail := EncStr(r.path) + (EncStr(r.path2) + (EncStr(r.name) + EncBytes(r.value)));
    assert EncStrs([r.path, r.path2, r.name]) + EncBytes(r.value) == tail;
    assert (((BE(r.id, 8) + BE(r.op, 1)) + BE(r.flags, 4)) + BE(r.mode, 4)) + tail == RequestBytes(r);
  }

  lemma {:induction false} EncStrsSnoc(ss: seq<Bytes>, s: Bytes)
    ensures EncStrs(ss + [s]) == EncStrs(ss) + EncStr(s)
  {
    if ss == [] {
      assert EncStrs([s]) == EncStr(s) + EncStrs([]);
    } else {
      assert (ss + [s])[1..] == ss[1..] + [s];
      EncStrsSnoc(ss[1..], s);
      Associate(EncStr(ss[0]), EncStrs(ss[1..]), EncStr(s));
    }
  }
}
