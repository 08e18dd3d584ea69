/**
 Matching replies to requests over one helper's connection (internal/helperpool/client.go).

 Calls run side by side with one reader.  A step of the machine is a critical section, a
 channel operation or a socket operation of one of them; the helper may send any frame at
 any time.  The channel a call makes is named after the call's request id.
 */
module HelperClient {
  import opened Common
  import opened Wire

  type Fd = nat

  datatype Reply = Reply(resp: Response, file: Option<Fd>)

  /** A channel with room for one reply. */
  datatype Chan = Chan(buf: Option<Reply>, closed: bool)

  const EMPTY := Chan(None, false)

  datatype Phase =
    | Fresh                // has its id, not registered yet
    | Writing              // registered, its frame not written yet
    | Waiting              // at the select
    | Got(reply: Reply)    // returned with a reply, and owns the reply's descriptor
    | GaveUp               // returned because its context ended
    | WriteFailed          // returned because the frame could not be written
    | Refused              // returned because the frame did not encode, or the client is closed

  datatype Reader = Reading | Sending(ch: nat, reply: Reply) | Stopped

  /** What the mutex guards, with the channels. */
  datatype Table = Table(pending: map<nat, nat>, chans: map<nat, Chan>, closed: bool)

  datatype State = State(
    nextID: nat,
    table: Table,
    calls: map<nat, Phase>,
    reader: Reader,
    received: set<Fd>,      // every descriptor the helper ever sent
    shut: set<Fd>)          // those the client closed itself

  // --------------------------------------------------------- critical sections

  function Registered(t: Table, id: nat): Table {
    t.(pending := t.pending[id := id], chans := t.chans[id := EMPTY])
  }

  function Deleted(t: Table, id: nat): Table { t.(pending := t.pending - {id}) }

  function ClosedChan(c: Chan): Chan { c.(closed := true) }

  function ShutDown(t: Table): Table {
    if t.closed then t
    else Table(map[], map c | c in t.chans :: if c in t.pending.Values then ClosedChan(t.chans[c]) else t.chans[c], true)
  }

  predicate HasFd(r: Response) { Test(r.has, HAS_FD) }

  function Closing(shut: set<Fd>, file: Option<Fd>): set<Fd> {
    if file.Some? then shut + {file.value} else shut
  }

  // ------------------------------------------------------------------- steps

  datatype Action =
    | Begin
    | MarshalFails(id: nat)
    | Register(id: nat)
    | Written(id: nat)
    | WriteFails(id: nat)
    | Receive(id: nat)
    | Cancel(id: nat)
    | Frame(b: Bytes, file: Option<Fd>)
    | Send
    | ReadFails

  predicate InPhase(s: State, id: nat, p: Phase) { id in s.calls && s.calls[id] == p }

  /** Request ids do not wrap: a connection carries fewer than 2^64 calls. */
  predicate Enabled(s: State, a: Action) {
    match a
    case Begin => s.nextID + 1 < U64
    case MarshalFails(id) => InPhase(s, id, Fresh)
    case Register(id) => InPhase(s, id, Fresh)
    case Written(id) => InPhase(s, id, Writing)
    case WriteFails(id) => InPhase(s, id, Writing)
    case Receive(id) => InPhase(s, id, Waiting) && id in s.table.chans && s.table.chans[id] != EMPTY
    case Cancel(id) => InPhase(s, id, Waiting)
    case Frame(b, file) => s.reader.Reading? && (file.Some? ==> file.value !in s.received)
    case Send => s.reader.Sending?
    case ReadFails => s.reader.Reading?
  }

  function Moved(s: State, id: nat, p: Phase): State { s.(calls := s.calls[id := p]) }

  function Received(s: State, id: nat): State
    requires Enabled(s, Receive(id))
  {
    var c := s.table.chans[id];
    if c.buf.Some? then
      Moved(s, id, Got(c.buf.value)).(table := s.table.(chans := s.table.chans[id := c.(buf := None)]))
    else Moved(s, id, Refused)
  }

  function StopReading(s: State): State { s.(table := ShutDown(s.table), reader := Stopped) }

  /** A frame arrives, with at most one descriptor. */
  function Delivered(s: State, b: Bytes, file: Option<Fd>): State {
    var d := DecodeResponse(b);
    var t := s.(received := Closing(s.received, file));
    if d.Err? || HasFd(d.value) != file.Some? then StopReading(t.(shut := Closing(s.shut, file)))
    else
      var id := d.value.id;
      if id in s.table.pending then
        t.(table := Deleted(s.table, id), reader := Sending(s.table.pending[id], Reply(d.value, file)))
      else t.(shut := Closing(s.shut, file))
  }

  function Sent(s: State): State
    requires s.reader.Sending?
  {
    var ch := s.reader.ch;
    s.(table := s.table.(chans := s.table.chans[ch := Chan(Some(s.reader.reply), false)]), reader := Reading)
  }

  function Apply(s: State, a: Action): State
    requires Enabled(s, a)
  {
    match a
    case Begin => s.(nextID := s.nextID + 1, calls := s.calls[s.nextID + 1 := Fresh])
    case MarshalFails(id) => Moved(s, id, Refused)
    case Register(id) =>
      if s.table.closed then Moved(s, id, Refused) else Moved(s, id, Writing).(table := Registered(s.table, id))
    case Written(id) => Moved(s, id, Waiting)
    case WriteFails(id) => Moved(s, id, WriteFailed).(table := Deleted(s.table, id))
    case Receive(id) => Received(s, id)
    case Cancel(id) => Moved(s, id, GaveUp)
    case Frame(b, file) => Delivered(s, b, file)
    case Send => Sent(s)
    case ReadFails => StopReading(s)
  }

  const START := State(0, Table(map[], map[], false), map[], Reading, {}, {})

  // --------------------------------------------------------------- invariants

  /** Ids are handed out once, and a channel exists only for a registered call. */
  ghost predicate Numbered(s: State) {
    (forall id | id in s.calls :: 1 <= id <= s.nextID)
    && (forall id | id in s.table.chans :: id in s.calls && s.calls[id] != Fresh)
    && (s.table.closed <==> s.reader.Stopped?)
    && (s.table.closed ==> s.table.pending == map[])
  }

  predicate Unfinished(p: Phase) { p.Writing? || p.Waiting? || p.GaveUp? }

  /** Whoever may still be sent to has an open, empty channel of its own. */
  ghost predicate Awaited(s: State) {
    forall id | id in s.table.pending ::
      s.table.pending[id] == id && id in s.table.chans && s.table.chans[id] == EMPTY
      && id in s.calls && Unfinished(s.calls[id])
  }

  /** The reader between taking a call out of the table and sending to it. */
  ghost predicate Handover(s: State) {
    s.reader.Sending? ==>
      var ch := s.reader.ch;
      ch in s.table.chans && s.table.chans[ch] == EMPTY && ch !in s.table.pending
      && s.reader.reply.resp.id == ch && ch in s.calls && (Unfinished(s.calls[ch]) || s.calls[ch].WriteFailed?)
  }

  /** A reply sits only in the channel of the call it answers, and only a call still open can hold one. */
  ghost predicate Addressed(s: State) {
    forall id | id in s.table.chans && s.table.chans[id].buf.Some? ::
      s.table.chans[id].buf.value.resp.id == id && !s.table.chans[id].closed
      && id !in s.table.pending && !(s.reader.Sending? && s.reader.ch == id)
      && id in s.calls && (Unfinished(s.calls[id]) || s.calls[id].WriteFailed?)
  }

  /** A call that returned a reply returned its own. */
  ghost predicate Answered(s: State) {
    forall id | id in s.calls && s.calls[id].Got? ::
      s.calls[id].reply.resp.id == id && id in s.table.chans && s.table.chans[id] == EMPTY
      && id !in s.table.pending && !(s.reader.Sending? && s.reader.ch == id)
  }

  /** Nobody waits for something that can no longer come. */
  ghost predicate Reachable(s: State, id: nat) {
    id in s.table.chans
    && (id in s.table.pending || (s.reader.Sending? && s.reader.ch == id) || s.table.chans[id] != EMPTY)
  }

  ghost predicate NobodyForgotten(s: State) {
    forall id | id in s.calls && (s.calls[id].Writing? || s.calls[id].Waiting?) :: Reachable(s, id)
  }

  ghost predicate Matched(s: State)
    requires Numbered(s)
  {
    Awaited(s) && Handover(s) && Addressed(s) && Answered(s) && NobodyForgotten(s)
  }

  ghost predicate Inv(s: State) { Numbered(s) && Matched(s) }

  lemma InvParts(s: State)
    requires Inv(s)
    ensures Numbered(s) && Handover(s)
  {
  }

  lemma NumberedKept(s: State, a: Action)
    requires Inv(s) && Enabled(s, a)
    ensures Numbered(Apply(s, a))
  {
    hide DecodeResponse, Addressed, Answered, NobodyForgotten;
  }

  lemma AwaitedKept(s: State, a: Action)
    requires Inv(s) && Enabled(s, a)
    ensures Awaited(Apply(s, a))
  {
    hide DecodeResponse, Addressed, Answered, NobodyForgotten;
  }

  lemma HandoverKept(s: State, a: Action)
    requires Inv(s) && Enabled(s, a)
    ensures Handover(Apply(s, a))
  {
    hide DecodeResponse, Addressed, Answered, NobodyForgotten;
  }

  lemma AddressedKept(s: State, a: Action)
    requires Inv(s) && Enabled(s, a)
    ensures Addressed(Apply(s, a))
  {
    hide DecodeResponse, Answered, NobodyForgotten;
  }

  lemma AnsweredKept(s: State, a: Action)
    requires Inv(s) && Enabled(s, a)
    ensures Answered(Apply(s, a))
  {
    hide DecodeResponse, NobodyForgotten;
  }

  lemma NobodyForgottenKept(s: State, a: Action)
    requires Inv(s) && Enabled(s, a)
    ensures NobodyForgotten(Apply(s, a))
  {
    hide DecodeResponse, Addressed, Answered;
  }

  /** What a well-formed frame is: a response whose flag says whether a descriptor came with it. */
  ghost predicate WellFormed(b: Bytes, file: Option<Fd>) {
    DecodeResponse(b).Ok? && (HasFd(DecodeResponse(b).value) <==> file.Some?)
  }

  /** A waiting call's reply reaches it: the frame, the send and the select end with the call owning reply and descriptor. */
  lemma ReplyReachesItsCall(s: State, b: Bytes, file: Option<Fd>, id: nat)
    requires Inv(s) && Enabled(s, Frame(b, file)) && WellFormed(b, file) && DecodeResponse(b).value.id == id
    requires InPhase(s, id, Waiting) && id in s.table.pending
    ensures var t := Apply(s, Frame(b, file));
            && Enabled(t, Send)
            && var u := Apply(t, Send);
               && Enabled(u, Receive(id)) && u.reader.Reading?
               && Apply(u, Receive(id)).calls[id] == Got(Reply(DecodeResponse(b).value, file))
  {
    hide DecodeResponse;
  }

  /** The reader stops exactly at a frame that is not well formed, or when reading fails; then nothing more is read. */
  lemma ReaderStopsIff(s: State, a: Action)
    requires Enabled(s, a) && !s.reader.Stopped?
    ensures Apply(s, a).reader.Stopped? <==> a.ReadFails? || (a.Frame? && !WellFormed(a.b, a.file))
    ensures a.Frame? && !WellFormed(a.b, a.file) && a.file.Some? ==> a.file.value in Apply(s, a).shut
  {
    hide DecodeResponse;
  }

  // ------------------------------------------------------------- descriptors

  datatype Place = Shut | InReader | Parked(ch: nat) | OwnedBy(id: nat)

  /** Where a descriptor the helper sent is. */
  ghost predicate At(s: State, d: Fd, p: Place) {
    match p
    case Shut => d in s.shut
    case InReader => s.reader.Sending? && s.reader.reply.file == Some(d)
    case Parked(ch) => ch in s.table.chans && s.table.chans[ch].buf.Some? && s.table.chans[ch].buf.value.file == Some(d)
    case OwnedBy(id) => id in s.calls && s.calls[id].Got? && s.calls[id].reply.file == Some(d)
  }

  /** Each descriptor is in exactly one place, and nothing else is in any. */
  ghost predicate Accounted(s: State) {
    (forall d | d in s.received :: exists p :: At(s, d, p))
    && (forall d, p | At(s, d, p) :: d in s.received)
    && (forall d, p, q | At(s, d, p) && At(s, d, q) :: p == q)
  }

  /** Where a place's descriptor goes when the step is taken. */
  ghost function Next(s: State, a: Action, p: Place): Place
    requires Enabled(s, a)
  {
    if a.Send? && p.InReader? then Parked(s.reader.ch)
    else if a.Receive? && p == Parked(a.id) then OwnedBy(a.id)
    else p
  }

  /** Where a newly received descriptor is. */
  ghost function Arrival(s: State, b: Bytes): Place {
    var d := DecodeResponse(b);
    if d.Ok? && HasFd(d.value) && d.value.id in s.table.pending then InReader else Shut
  }

  lemma PlacesMove(s: State, a: Action, d: Fd, p: Place)
    requires Numbered(s) && Handover(s) && Enabled(s, a) && At(s, d, p)
    ensures At(Apply(s, a), d, Next(s, a, p))
  {
    hide DecodeResponse;
    match p {
      case Shut =>
      case InReader =>
      case Parked(ch) => assert ch in Apply(s, a).table.chans || a == Receive(ch);
      case OwnedBy(id) => assert Apply(s, a).calls[id] == s.calls[id];
    }
  }

  lemma ArrivalIsPlaced(s: State, b: Bytes, file: Option<Fd>)
    requires Inv(s) && Enabled(s, Frame(b, file)) && file.Some?
    ensures At(Apply(s, Frame(b, file)), file.value, Arrival(s, b))
  {
    hide DecodeResponse;
  }

  /** Nothing comes to a place but by such a move. */
  lemma PlacesCameFrom(s: State, a: Action, d: Fd, q: Place) returns (p: Place)
    requires Inv(s) && Accounted(s) && Enabled(s, a) && At(Apply(s, a), d, q)
    ensures if a.Frame? && a.file == Some(d) then q == Arrival(s, a.b) else At(s, d, p) && q == Next(s, a, p)
  {
    hide DecodeResponse, Reachable, NobodyForgotten, Awaited;
    p := if a.Send? && q == Parked(s.reader.ch) then InReader
         else if a.Receive? && q == OwnedBy(a.id) then Parked(a.id)
         else q;
    if a.Frame? && a.file == Some(d) {
      assert !At(s, d, q);
    }
  }

  lemma AccountedKept(s: State, a: Action)
    requires Inv(s) && Accounted(s) && Enabled(s, a)
    ensures Accounted(Apply(s, a))
  {
    InvParts(s);
    hide At, Next, Inv, Arrival, DecodeResponse;
    var t := Apply(s, a);
    forall d | d in t.received ensures exists p :: At(t, d, p) {
      if d in s.received {
        var p :| At(s, d, p);
        PlacesMove(s, a, d, p);
      } else {
        ArrivalIsPlaced(s, a.b, a.file);
      }
    }
    forall d, q | At(t, d, q) ensures d in t.received {
      var p := PlacesCameFrom(s, a, d, q);
    }
    forall d, q, r | At(t, d, q) && At(t, d, r) ensures q == r {
      var p := PlacesCameFrom(s, a, d, q);
      var p' := PlacesCameFrom(s, a, d, r);
    }
  }

  // -------------------------------------------------------------------- runs

  ghost predicate Run(b: seq<State>, acts: seq<Action>) {
    |b| == |acts| + 1 && b[0] == START
    && forall i | 0 <= i < |acts| :: Enabled(b[i], acts[i]) && b[i + 1] == Apply(b[i], acts[i])
  }

  lemma StepKeepsInv(s: State, a: Action)
    requires Inv(s) && Accounted(s) && Enabled(s, a)
    ensures Inv(Apply(s, a)) && Accounted(Apply(s, a))
  {
    hide *;
    NumberedKept(s, a);
    AwaitedKept(s, a);
    HandoverKept(s, a);
    AddressedKept(s, a);
    AnsweredKept(s, a);
    NobodyForgottenKept(s, a);
    AccountedKept(s, a);
    InvOf(Apply(s, a));
  }

  lemma InvOf(s: State)
    requires Numbered(s) && Awaited(s) && Handover(s) && Addressed(s) && Answered(s) && NobodyForgotten(s)
    ensures Inv(s)
  {
  }

  lemma {:induction false} RunKeepsInv(b: seq<State>, acts: seq<Action>, i: nat)
    requires Run(b, acts) && i < |b|
    ensures Inv(b[i]) && Accounted(b[i])
    decreases i
  {
    hide Inv, Accounted, Enabled, Apply;
    if i == 0 {
      StartIsSound();
    } else {
      RunKeepsInv(b, acts, i - 1);
      StepKeepsInv(b[i - 1], acts[i - 1]);
    }
  }

  lemma StartIsSound()
    ensures Inv(START) && Accounted(START)
  {
  }

  /** A send always finds its channel open and with room, and a shutdown closes only open channels. */
  lemma NoSendBlocksNoCloseRepeats(b: seq<State>, acts: seq<Action>, i: nat)
    requires Run(b, acts) && i < |b|
    ensures b[i].reader.Sending? ==> b[i].reader.ch in b[i].table.chans && b[i].table.chans[b[i].reader.ch] == EMPTY
    ensures forall id | id in b[i].table.pending ::
              b[i].table.pending[id] in b[i].table.chans && b[i].table.chans[b[i].table.pending[id]] == EMPTY
  {
    hide Run;
    RunKeepsInv(b, acts, i);
  }

  // ----------------------------------------------------- one reply for each call

  predicate Over(p: Phase) { p.Got? || p.GaveUp? || p.WriteFailed? || p.Refused? }

  lemma OverStays(s: State, a: Action, id: nat)
    requires Inv(s) && Enabled(s, a) && id in s.calls && Over(s.calls[id])
    ensures var t := Apply(s, a); id in t.calls && t.calls[id] == s.calls[id]
  {
    hide DecodeResponse;
  }

  /** What a call returns it returns once, and a reply it returns carries its own id. */
  lemma {:induction false} ReturnsOnceItsOwnReply(b: seq<State>, acts: seq<Action>, id: nat, i: nat, j: nat)
    requires Run(b, acts) && i <= j < |b| && id in b[i].calls && Over(b[i].calls[id])
    ensures id in b[j].calls && b[j].calls[id] == b[i].calls[id]
    ensures b[i].calls[id].Got? ==> b[i].calls[id].reply.resp.id == id
    decreases j
  {
    hide Enabled, Apply;
    RunKeepsInv(b, acts, i);
    if i < j {
      ReturnsOnceItsOwnReply(b, acts, id, i, j - 1);
      RunKeepsInv(b, acts, j - 1);
      OverStays(b[j - 1], acts[j - 1], id);
    }
  }

  /** The channel has had its reply. */
  ghost predicate Spent(s: State, ch: nat) {
    ch in s.calls && s.calls[ch] != Fresh && ch !in s.table.pending && !(s.reader.Sending? && s.reader.ch == ch)
  }

  lemma SpentStays(s: State, a: Action, ch: nat)
    requires Inv(s) && Enabled(s, a) && Spent(s, ch)
    ensures Spent(Apply(s, a), ch)
  {
    hide DecodeResponse;
  }

  lemma {:induction false} SpentForGood(b: seq<State>, acts: seq<Action>, ch: nat, i: nat, j: nat)
    requires Run(b, acts) && i <= j < |b| && Spent(b[i], ch)
    ensures Spent(b[j], ch)
    decreases j
  {
    hide Enabled, Apply, Spent;
    if i < j {
      SpentForGood(b, acts, ch, i, j - 1);
      RunKeepsInv(b, acts, j - 1);
      SpentStays(b[j - 1], acts[j - 1], ch);
    }
  }

  /** Whatever ids the helper repeats, no channel is sent to twice. */
  lemma NoChannelIsSentToTwice(b: seq<State>, acts: seq<Action>, i: nat, j: nat)
    requires Run(b, acts) && i < j < |acts| && acts[i].Send? && acts[j].Send?
    ensures b[i].reader.Sending? && b[j].reader.Sending? && b[i].reader.ch != b[j].reader.ch
  {
    RunKeepsInv(b, acts, i);
    assert Enabled(b[i], acts[i]) && Enabled(b[j], acts[j]);
    SentIsSpent(b[i]);
    SpentForGood(b, acts, b[i].reader.ch, i + 1, j);
  }

  lemma SentIsSpent(s: State)
    requires Inv(s) && s.reader.Sending?
    ensures Spent(Apply(s, Send), s.reader.ch)
  {
  }

  /** Once the reader has stopped, a call at its select can return, and no later call can get there unanswered. */
  lemma NobodyIsLeftWaiting(b: seq<State>, acts: seq<Action>, i: nat, id: nat)
    requires Run(b, acts) && i < |b| && b[i].reader.Stopped?
    ensures b[i].table.pending == map[]
    ensures InPhase(b[i], id, Waiting) ==> Enabled(b[i], Receive(id)) && Over(Apply(b[i], Receive(id)).calls[id])
    ensures InPhase(b[i], id, Writing) ==> Enabled(Apply(b[i], Written(id)), Receive(id))
    ensures InPhase(b[i], id, Fresh) ==> Apply(b[i], Register(id)).calls[id] == Refused
  {
    hide Run;
    RunKeepsInv(b, acts, i);
  }

  // ----------------------------------------------------- descriptors nobody reads

  /** Sent to a call that has already returned without it. */
  ghost predicate Lost(s: State, d: Fd, id: nat) {
    At(s, d, Parked(id)) && id in s.calls && (s.calls[id].GaveUp? || s.calls[id].WriteFailed?)
  }

  /**
   When every call has returned and the reader is not between two steps, a descriptor the helper sent
   was closed, belongs to the call it answered, or is lost; it is lost exactly when it was sent to
   a call that had given up or whose write had failed.
   */
  lemma WhereDescriptorsEnd(b: seq<State>, acts: seq<Action>, i: nat, d: Fd)
    requires Run(b, acts) && i < |b| && d in b[i].received && !b[i].reader.Sending?
    requires forall id | id in b[i].calls :: Over(b[i].calls[id])
    ensures (d in b[i].shut || exists id :: At(b[i], d, OwnedBy(id))) <==> !(exists id :: Lost(b[i], d, id))
  {
    var s := b[i];
    hide Run;
    RunKeepsInv(b, acts, i);
    var p :| At(s, d, p);
    if p.Parked? {
      assert Lost(s, d, p.ch);
      assert d in s.shut ==> At(s, d, Shut);
    }
  }

  lemma LostStays(s: State, a: Action, d: Fd, id: nat)
    requires Inv(s) && Enabled(s, a) && Lost(s, d, id)
    ensures Lost(Apply(s, a), d, id)
  {
    hide DecodeResponse;
    PlacesMove(s, a, d, Parked(id));
    OverStays(s, a, id);
  }

  /**
   No step of the client closes a lost descriptor and no call collects it, shutdown included.  (The runtime
   may close it once nothing refers to the channel any more; that is not a step of this model.)
   */
  lemma {:induction false} LostForGood(b: seq<State>, acts: seq<Action>, d: Fd, id: nat, i: nat, j: nat)
    requires Run(b, acts) && i <= j < |b| && Lost(b[i], d, id)
    ensures Lost(b[j], d, id) && d !in b[j].shut && forall c :: !At(b[j], d, OwnedBy(c))
    decreases j
  {
    hide Enabled, Apply, Lost, At;
    RunKeepsInv(b, acts, j);
    if i < j {
      LostForGood(b, acts, d, id, i, j - 1);
      RunKeepsInv(b, acts, j - 1);
      LostStays(b[j - 1], acts[j - 1], d, id);
    }
    OnlyParked(b[j], d, id);
  }

  lemma OnlyParked(s: State, d: Fd, id: nat)
    requires Accounted(s) && Lost(s, d, id)
    ensures d !in s.shut && forall c :: !At(s, d, OwnedBy(c))
  {
    assert At(s, d, Parked(id));
    assert d in s.shut ==> At(s, d, Shut);
  }

  /**
   The reader closes the descriptor of a well-formed reply exactly when its id is not in the table.
   A cancelled call stays in the table, so its descriptor is not closed but sent, and lost.
   */
  lemma CancelledCallLosesItsDescriptor(s: State, b: Bytes, d: Fd)
    requires Inv(s) && Enabled(s, Frame(b, Some(d))) && DecodeResponse(b).Ok? && HasFd(DecodeResponse(b).value)
    ensures var id, t := DecodeResponse(b).value.id, Apply(s, Frame(b, Some(d)));
            (d in t.shut <==> id !in s.table.pending || d in s.shut)
            && (InPhase(s, id, GaveUp) && id in s.table.pending ==> Enabled(t, Send) && Lost(Apply(t, Send), d, id))
  {
  }

  /** A reply to request 1 that announces a descriptor and carries nothing else. */
  const FD_REPLY := Response(1, HAS_FD, 0, None, [], [])

  lemma BareReplyCrosses(r: Response) returns (frame: Bytes)
    requires r == Response(r.id, HAS_FD, r.errno, None, [], [])
    ensures DecodeResponse(frame) == Ok(r) && HasFd(r)
  {
    FlagsAreHonest(r);
    assert Normal(r) == r && |ResponseBytes(r)| == 13;
    frame := EncodeResponse(r).value;
    ResponseRoundTrip(r);
  }

  lemma ReplyIsParked(frame: Bytes, calls: map<nat, Phase>)
    requires DecodeResponse(frame) == Ok(FD_REPLY) && HasFd(FD_REPLY)
    ensures var s := State(1, Table(map[1 := 1], map[1 := EMPTY], false), calls, Reading, {}, {});
            Delivered(s, frame, Some(7))
            == State(1, Table(map[], map[1 := EMPTY], false), calls, Sending(1, Reply(FD_REPLY, Some(7))), {7}, {})
  {
    hide DecodeResponse;
  }

  /** One call alone, in its four phases before any reply. */
  function CallAlone(p: Phase): State {
    State(1, if p.Fresh? then START.table else Table(map[1 := 1], map[1 := EMPTY], false), map[1 := p], Reading, {}, {})
  }

  lemma CallAloneSteps()
    ensures Enabled(START, Begin) && Apply(START, Begin) == CallAlone(Fresh)
    ensures Enabled(CallAlone(Fresh), Register(1)) && Apply(CallAlone(Fresh), Register(1)) == CallAlone(Writing)
    ensures Enabled(CallAlone(Writing), Written(1)) && Apply(CallAlone(Writing), Written(1)) == CallAlone(Waiting)
    ensures Enabled(CallAlone(Waiting), Cancel(1)) && Apply(CallAlone(Waiting), Cancel(1)) == CallAlone(GaveUp)
  {
  }

  lemma LateReplyIsLost(frame: Bytes)
    requires DecodeResponse(frame) == Ok(FD_REPLY) && HasFd(FD_REPLY)
    ensures Enabled(CallAlone(GaveUp), Frame(frame, Some(7)))
    ensures var taken := Apply(CallAlone(GaveUp), Frame(frame, Some(7)));
            Enabled(taken, Send) && Lost(Apply(taken, Send), 7, 1)
  {
    hide DecodeResponse, Delivered, HasFd;
    ReplyIsParked(frame, map[1 := GaveUp]);
  }

  /** Such a run exists: one call, cancelled while its reply was on the way. */
  lemma ADescriptorCanBeLost() returns (b: seq<State>, acts: seq<Action>)
    ensures Run(b, acts) && Lost(b[|b| - 1], 7, 1)
  {
    hide Enabled, Apply, CallAlone, Lost;
    var frame := BareReplyCrosses(FD_REPLY);
    CallAloneSteps();
    LateReplyIsLost(frame);
    var taken := Apply(CallAlone(GaveUp), Frame(frame, Some(7)));
    var parked := Apply(taken, Send);
    acts := [Begin, Register(1), Written(1), Cancel(1), Frame(frame, Some(7)), Send];
    b := [START, CallAlone(Fresh), CallAlone(Writing), CallAlone(Waiting), CallAlone(GaveUp), taken, parked];
  }

  // --------------------------------------------------------------- in the code

  /** The table the mutex guards, changed in place. */
  class Client {
    var pending: map<nat, nat>
    var chans: map<nat, Chan>
    var closed: bool

    ghost function Now(): Table
      reads this
    {
      Table(pending, chans, closed)
    }

    ghost predicate Valid()
      reads this
    {
      forall id | id in pending :: pending[id] == id && id in chans && chans[id] == EMPTY
    }

    constructor ()
      ensures Valid() && Now() == START.table
    {
      pending, chans, closed := map[], map[], false;
    }

    /** Do's first critical section: refused once closed. */
    method Join(id: nat) returns (ok: bool)
      requires Valid()
      modifies this
      ensures Valid() && ok == !old(closed)
      ensures Now() == if ok then Registered(old(Now()), id) else old(Now())
    {
      ok := !closed;
      if ok {
        chans := chans[id := EMPTY];
        pending := pending[id := id];
      }
    }

    /** What Do undoes when the frame could not be written. */
    method Forget(id: nat)
      requires Valid()
      modifies this
      ensures Valid() && Now() == Deleted(old(Now()), id)
    {
      pending := pending - {id};
    }

    /** The reader's critical section: the call's channel, taken out of the table. */
    method Claim(id: nat) returns (ch: Option<nat>)
      requires Valid()
      modifies this
      ensures Valid() && Now() == Deleted(old(Now()), id)
      ensures ch == if id in old(pending) then Some(old(pending)[id]) else None
    {
      ch := if id in pending then Some(pending[id]) else None;
      pending := pending - {id};
    }

    /** Closes every registered channel, each once, and empties the table. */
    method Shutdown()
      requires Valid()
      modifies this
      ensures Valid() && Now() == ShutDown(old(Now()))
    {
      hide ShutDown, HalfShut;
      ghost var start := Now();
      NothingShutYet(start);
      if closed { return; }
      closed := true;
      while pending != map[]
        invariant Valid() && closed && HalfShut(start, Now())
        decreases |pending|
      {
        var id :| id in pending;
        var ch := pending[id];
        ShutOne(start, Now(), id);
        chans := chans[ch := ClosedChan(chans[ch])];
        Fewer(pending, id);
        pending := pending - {id};
      }
      AllShut(start, Now());
    }
  }

  /** Part-way through a shutdown: the channels taken out of the table so far are closed. */
  ghost predicate HalfShut(start: Table, t: Table) {
    && (forall id | id in start.pending :: start.pending[id] == id)
    && t.pending.Keys <= start.pending.Keys && t.chans.Keys == start.chans.Keys
    && forall c | c in t.chans ::
         t.chans[c] == if c in start.pending && c !in t.pending then ClosedChan(start.chans[c]) else start.chans[c]
  }

  lemma NothingShutYet(t: Table)
    requires forall id | id in t.pending :: t.pending[id] == id
    ensures HalfShut(t, t.(closed := true)) && (t.closed ==> ShutDown(t) == t)
  {
  }

  lemma ShutOne(start: Table, t: Table, id: nat)
    requires HalfShut(start, t) && id in t.pending && id in t.chans
    ensures HalfShut(start, Table(t.pending - {id}, t.chans[id := ClosedChan(t.chans[id])], t.closed))
  {
  }

  lemma AllShut(start: Table, t: Table)
    requires HalfShut(start, t) && t.pending == map[] && t.closed && !start.closed
    ensures t == ShutDown(start)
  {
    ValuesAreKeys(start.pending);
  }

  lemma Fewer(m: map<nat, nat>, id: nat)
    requires id in m
    ensures |m - {id}| < |m|
  {
    assert (m - {id}).Keys == m.Keys - {id};
    assert |m.Keys - {id}| < |m.Keys|;
    assert |m - {id}| == |(m - {id}).Keys| && |m| == |m.Keys|;
  }

  lemma ValuesAreKeys(m: map<nat, nat>)
    requires forall id | id in m :: m[id] == id
    ensures m.Values == m.Keys
  {
    forall c ensures c in m.Values <==> c in m.Keys {
      if c in m.Keys {
        assert m[c] == c;
      }
    }
  }

  function Flatten(msgs: seq<Option<seq<Fd>>>): seq<Fd> {
    if msgs == [] then [] else (if msgs[0].Some? then msgs[0].value else []) + Flatten(msgs[1..])
  }

  lemma {:induction false} FlattenSnoc(msgs: seq<Option<seq<Fd>>>, m: Option<seq<Fd>>)
    ensures Flatten(msgs + [m]) == Flatten(msgs) + (if m.Some? then m.value else [])
  {
    var last := if m.Some? then m.value else [];
    if msgs == [] {
      assert [m][1..] == [] && last + [] == last;
    } else {
      assert (msgs + [m])[1..] == msgs[1..] + [m];
      FlattenSnoc(msgs[1..], m);
    }
  }

  /**
   Keeps the first descriptor of the control messages and closes every other one.  `parsed` is what the
   bytes came apart into: nothing when they do not parse as a whole, and then the descriptors the
   kernel installed with them are neither returned nor closed.
   */
  method ParseRights(parsed: Option<seq<Option<seq<Fd>>>>) returns (out: Option<Fd>, closed: seq<Fd>)
    ensures parsed.Some? ==> Flatten(parsed.value) == (if out.Some? then [out.value] else []) + closed
    ensures parsed.None? || Flatten(parsed.value) == [] ==> out.None?
    ensures out.None? ==> closed == []
  {
    out, closed := None, [];
    if parsed.None? { return; }
    var msgs := parsed.value;
    for i := 0 to |msgs|
      invariant Flatten(msgs[..i]) == (if out.Some? then [out.value] else []) + closed
      invariant out.None? ==> closed == []
    {
      FlattenSnoc(msgs[..i], msgs[i]);
      assert msgs[..i + 1] == msgs[..i] + [msgs[i]];
      if msgs[i].None? { continue; }
      var fds := msgs[i].value;
      ghost var done := Flatten(msgs[..i]);
      for j := 0 to |fds|
        invariant done + fds[..j] == (if out.Some? then [out.value] else []) + closed
        invariant out.None? ==> closed == []
      {
        assert done + fds[..j + 1] == (done + fds[..j]) + [fds[j]];
        if out.None? {
          assert [] + closed == [];
          out := Some(fds[j]);
        } else {
          closed := closed + [fds[j]];
        }
      }
      assert fds[..|fds|] == fds;
    }
    assert msgs[..|msgs|] == msgs;
  }
}
