/** Polls, session calls and one upgrader around a polling payload (engineio/payload/payload.go,
    engineio/payload/pauser.go, engineio/session/session.go). One step is one lock section, one atomic
    operation or one rendezvous on an unbuffered channel; any number of polls and writing calls, and one reading call
    after the other, take steps in any order. Timers fire at any time; deadlines pass and are moved by steps. */
module Handoff {
  import P = Pauser

  /** An HTTP poll or a session call. Ids are never reused. */
  type Id = nat

  /** `FeedIn` meets `NextReader`, `FlushOut` meets `NextWriter`. */
  datatype Side = Reading | Writing

  datatype Conn = Old | New(attempt: nat)

  datatype PollResult = Answered(ok: bool) | NoopSent(ok: bool) | Refused | PayloadClosed | Overlap | TimedOut

  /** Where a `FeedIn` or `FlushOut` is. */
  datatype Poll =
    | Entered(side: Side)
    | Claimed(side: Side)                       // the feeding/flushing flag is ours
    | Holding(side: Side)                       // `Working` succeeded; at the top of the first loop
    | Offering(side: Side, trigger: nat)        // in the first select, with the pausing channel looked up
    | Awaiting(side: Side, partner: Id, armed: bool) // handed over; in the second select, or at the top of its loop
    | Received(side: Side, ok: bool)            // got the reply, before it is stored
    | Returning(side: Side, result: PollResult) // before the deferred `Done`
    | Leaving(side: Side, result: PollResult)   // before the deferred release of the flag
    | Finished(side: Side, result: PollResult)

  /** What a call does with what it was handed. A writer sets up the shared encoder, writes header and frame, and
      stores the outcome before it answers. A reader is given to the shared decoder once its first header is read;
      the frame is open until its `Close`, which answers at the end of the input and on errors. */
  datatype Stage = Got | Started | Sent(ok: bool) | Stored(ok: bool, success: bool)

  /** How a frame is closed: on to the next header, at the clean end of the input, or on an error. */
  datatype FrameEnd = MoreFrames | CleanEnd | BadFrame

  /** The reader the shared decoder holds, by the poll that handed it over. */
  datatype Decoder = Empty | Open(poll: Id)

  /** Where a session call is, from `nextReader`/`nextWriter` to the `Close` of what it was handed. */
  datatype Call =
    | Fresh(side: Side)                         // top of the retry loop
    | Snapped(side: Side, conn: Conn)           // `s.conn` copied under the read lock
    | Checked(side: Side)                       // the payload was not closed
    | Token(side: Side)                         // between `Working` and `Done`
    | Armed(side: Side)                         // at the top of the waiting loop
    | Waiting(side: Side, trigger: nat)         // in the select, with the paused channel looked up
    | Out(side: Side, poll: Id, stage: Stage)   // holds the poll's writer, or reads from its reader
    | OutNew(side: Side, attempt: nat)          // holds a frame of the upgraded connection
    | Ended(side: Side, ok: bool)

  datatype Upgrader =
    | Idle
    | Probing(attempt: nat)
    | Pausing(attempt: nat)
    | Frozen(attempt: nat)
    | Swapped(attempt: nat)

  /** What a poll's response holds: whole packets, or what a failed write left. */
  datatype Item = PacketOf(call: Id) | PartOf(call: Id) | Noop | PartNoop

  datatype Event = HandOver(conn: Conn, side: Side, call: Id) | PauseReturned | Resumed | SwappedTo(attempt: nat)

  datatype State = State(
    p: P.State,
    closed: bool,            // the payload's `close` channel
    stored: bool,            // an error other than the end of input was stored in the payload
    late: set<Side>,         // the deadlines that have passed
    busy: set<Side>,         // the `feeding` and `flushing` flags that are up
    polls: map<Id, Poll>,
    resp: map<Id, seq<Item>>,
    calls: map<Id, Call>,
    decoder: Decoder,        // the shared decoder's reader
    rawWriter: Id,           // the shared encoder's writer: a poll
    frameOwner: Id,          // the call whose frame the shared encoder caches
    conn: Conn,
    upgrader: Upgrader,
    attempts: nat,
    log: seq<Event>,
    wire: seq<(Conn, Id)>    // whole packets in the order they were written
  )

  const INITIAL: State :=
    State(P.INITIAL, false, false, {}, {}, map[], map[], map[], Empty, 0, 0, Old, Idle, 0, [], [])

  /** The upgrader's identity for the barrier's condition variable. */
  const UPGRADER: P.Thread := 0

  // ---------- polls ----------

  function SetPoll(s: State, f: Id, phase: Poll): State { s.(polls := s.polls[f := phase]) }

  function SetCall(s: State, t: Id, phase: Call): State { s.(calls := s.calls[t := phase]) }

  function Respond(s: State, f: Id, item: Item): State
    requires f in s.resp
  {
    s.(resp := s.resp[f := s.resp[f] + [item]])
  }

  datatype PollStep =
    | PollStart(f: Id, side: Side)
    | PollClaim(f: Id)
    | PollWork(f: Id)
    | FeedRefuse(f: Id)
    | FlushRefuse(f: Id, written: bool)
    | PollArm(f: Id)
    | PollNoop(f: Id, written: bool)
    | PollClosed(f: Id)
    | PollRearm(f: Id)
    | PollTimeout(f: Id)
    | PollAwait(f: Id)
    | PollRelook(f: Id)
    | PollGiveUp(f: Id)
    | PollStore(f: Id, eof: bool)
    | PollDone(f: Id)
    | PollRelease(f: Id)

  predicate PollAt(s: State, f: Id) { f in s.polls && f in s.resp }

  predicate DoPollStart(s: State, s': State, f: Id, side: Side) {
    && f !in s.polls
    && s' == SetPoll(s.(resp := s.resp[f := []]), f, if s.closed then Finished(side, PayloadClosed) else Entered(side))
  }

  predicate DoPollClaim(s: State, s': State, f: Id) {
    && PollAt(s, f) && s.polls[f].Entered?
    && var side := s.polls[f].side;
    && s' == if side in s.busy then SetPoll(s, f, Finished(side, Overlap))
             else SetPoll(s.(busy := s.busy + {side}), f, Claimed(side))
  }

  predicate DoPollWork(s: State, s': State, f: Id) {
    && PollAt(s, f) && s.polls[f].Claimed? && P.Working(s.p).1
    && s' == SetPoll(s.(p := P.Working(s.p).0), f, Holding(s.polls[f].side))
  }

  /** `Working` fails and a feed gets an error. */
  predicate DoFeedRefuse(s: State, s': State, f: Id) {
    && PollAt(s, f) && s.polls[f].Claimed? && s.polls[f].side.Reading? && !P.Working(s.p).1
    && s' == SetPoll(s, f, Leaving(Reading, Refused))
  }

  /** `Working` fails and a flush answers with a NOOP. */
  predicate DoFlushRefuse(s: State, s': State, f: Id, written: bool) {
    && PollAt(s, f) && s.polls[f].Claimed? && s.polls[f].side.Writing? && !P.Working(s.p).1
    && s' == SetPoll(Respond(s, f, if written then Noop else PartNoop), f, Leaving(Writing, NoopSent(written)))
  }

  predicate DoPollArm(s: State, s': State, f: Id) {
    && PollAt(s, f) && s.polls[f].Holding? && s.polls[f].side !in s.late
    && s' == SetPoll(s, f, Offering(s.polls[f].side, s.p.pausing))
  }

  predicate DoPollNoop(s: State, s': State, f: Id, written: bool) {
    && PollAt(s, f) && s.polls[f].Offering? && s.polls[f].side.Writing? && s.polls[f].trigger in s.p.closed
    && s' == SetPoll(Respond(s, f, if written then Noop else PartNoop), f, Returning(Writing, NoopSent(written)))
  }

  predicate DoPollClosed(s: State, s': State, f: Id) {
    && PollAt(s, f) && s.polls[f].Offering? && s.closed
    && s' == SetPoll(s, f, Returning(s.polls[f].side, PayloadClosed))
  }

  /** The timer of the first select fires; the deadline may have moved since, so the loop goes round. */
  predicate DoPollRearm(s: State, s': State, f: Id) {
    && PollAt(s, f) && s.polls[f].Offering? && s' == SetPoll(s, f, Holding(s.polls[f].side))
  }

  /** The deadline has passed at the top of the first loop. */
  predicate DoPollTimeout(s: State, s': State, f: Id) {
    && PollAt(s, f) && s.polls[f].Holding? && s.polls[f].side in s.late
    && s' == SetPoll(s, f, Returning(s.polls[f].side, TimedOut)).(stored := true)
  }

  /** From the top of the second loop into its select. */
  predicate DoPollAwait(s: State, s': State, f: Id) {
    && PollAt(s, f) && s.polls[f].Awaiting? && !s.polls[f].armed && s.polls[f].side !in s.late
    && s' == SetPoll(s, f, s.polls[f].(armed := true))
  }

  /** The timer of the second select fires. */
  predicate DoPollRelook(s: State, s': State, f: Id) {
    PollAt(s, f) && s.polls[f].Awaiting? && s.polls[f].armed && s' == SetPoll(s, f, s.polls[f].(armed := false))
  }

  /** The deadline has passed at the top of the second loop: the poll leaves without a reply. */
  predicate DoPollGiveUp(s: State, s': State, f: Id) {
    && PollAt(s, f) && s.polls[f].Awaiting? && !s.polls[f].armed && s.polls[f].side in s.late
    && s' == SetPoll(s, f, Returning(s.polls[f].side, TimedOut)).(stored := true)
  }

  /** The reply is stored if it is an error, but not if that is the end of the input. */
  predicate DoPollStore(s: State, s': State, f: Id, eof: bool) {
    && PollAt(s, f) && s.polls[f].Received?
    && var ph := s.polls[f];
    && s' == SetPoll(s, f, Returning(ph.side, Answered(ph.ok && !s.stored))).(stored := s.stored || (!ph.ok && !eof))
  }

  predicate DoPollDone(s: State, s': State, f: Id) {
    && PollAt(s, f) && s.polls[f].Returning?
    && s' == SetPoll(s.(p := P.Done(s.p)), f, Leaving(s.polls[f].side, s.polls[f].result))
  }

  predicate DoPollRelease(s: State, s': State, f: Id) {
    && PollAt(s, f) && s.polls[f].Leaving?
    && var side := s.polls[f].side;
    && s' == SetPoll(s.(busy := s.busy - {side}), f, Finished(side, s.polls[f].result))
  }

  predicate PollNext(s: State, s': State, step: PollStep) {
    match step
    case PollStart(f, side) => DoPollStart(s, s', f, side)
    case PollClaim(f) => DoPollClaim(s, s', f)
    case PollWork(f) => DoPollWork(s, s', f)
    case FeedRefuse(f) => DoFeedRefuse(s, s', f)
    case FlushRefuse(f, written) => DoFlushRefuse(s, s', f, written)
    case PollArm(f) => DoPollArm(s, s', f)
    case PollNoop(f, written) => DoPollNoop(s, s', f, written)
    case PollClosed(f) => DoPollClosed(s, s', f)
    case PollRearm(f) => DoPollRearm(s, s', f)
    case PollTimeout(f) => DoPollTimeout(s, s', f)
    case PollAwait(f) => DoPollAwait(s, s', f)
    case PollRelook(f) => DoPollRelook(s, s', f)
    case PollGiveUp(f) => DoPollGiveUp(s, s', f)
    case PollStore(f, eof) => DoPollStore(s, s', f, eof)
    case PollDone(f) => DoPollDone(s, s', f)
    case PollRelease(f) => DoPollRelease(s, s', f)
  }

  // ---------- session calls ----------

  datatype CallStep =
    | CallStart(t: Id, side: Side)
    | CallSnapshot(t: Id)
    | CallCheck(t: Id)
    | CallWork(t: Id)
    | CallRefused(t: Id)
    | CallDone(t: Id)
    | CallArm(t: Id)
    | CallPaused(t: Id)
    | CallClosed(t: Id)
    | Meet(t: Id, f: Id)
    | ReadHeader(t: Id, ok: bool)
    | ReadAgain(t: Id)
    | ReadClose(t: Id, end: FrameEnd)
    | PutArm(t: Id)
    | CallBegin(t: Id)
    | CallWrite(t: Id, ok: bool)
    | CallStore(t: Id, eof: bool)
    | CallRearm(t: Id)
    | CallTimeout(t: Id)
    | PutRearm(t: Id)
    | CallGiveUp(t: Id)
    | Answer(t: Id, f: Id, ok: bool)
    | CallDropped(t: Id)
    | NewOpen(t: Id)
    | NewFail(t: Id)
    | NewClose(t: Id, ok: bool)

  /** The call is in the select that sends its reply. */
  predicate ReadyToAnswer(ph: Call, ok: bool) {
    ph.Out? && ph.stage.Stored? && ph.stage.ok == ok
  }

  /** Calls of `NextReader` have to be made one after the other, each after the `Close` of what the last returned. */
  predicate NobodyReads(calls: map<Id, Call>) {
    forall u :: u in calls && calls[u].side.Reading? ==> calls[u].Ended?
  }

  predicate DoCallStart(s: State, s': State, t: Id, side: Side) {
    t !in s.calls && (side.Reading? ==> NobodyReads(s.calls)) && s' == SetCall(s, t, Fresh(side))
  }

  predicate DoCallSnapshot(s: State, s': State, t: Id) {
    t in s.calls && s.calls[t].Fresh? && s' == SetCall(s, t, Snapped(s.calls[t].side, s.conn))
  }

  /** A decoder that has a reader does not ask for another. */
  predicate DoCallCheck(s: State, s': State, t: Id) {
    && t in s.calls && s.calls[t].Snapped? && s.calls[t].conn.Old?
    && var side := s.calls[t].side;
    && (side.Reading? ==> s.decoder.Empty?)
    && s' == SetCall(s, t, if s.closed then Ended(side, false) else Checked(side))
  }

  predicate DoCallWork(s: State, s': State, t: Id) {
    && t in s.calls && s.calls[t].Checked? && P.Working(s.p).1
    && s' == SetCall(s.(p := P.Working(s.p).0), t, Token(s.calls[t].side))
  }

  /** A paused payload answers with a temporary error, and the session loop starts over. */
  predicate DoCallRefused(s: State, s': State, t: Id) {
    && t in s.calls && s.calls[t].Checked? && !P.Working(s.p).1
    && s' == SetCall(s, t, Fresh(s.calls[t].side))
  }

  predicate DoCallDone(s: State, s': State, t: Id) {
    t in s.calls && s.calls[t].Token? && s' == SetCall(s.(p := P.Done(s.p)), t, Armed(s.calls[t].side))
  }

  predicate DoCallArm(s: State, s': State, t: Id) {
    && t in s.calls && s.calls[t].Armed? && s.calls[t].side !in s.late
    && s' == SetCall(s, t, Waiting(s.calls[t].side, s.p.paused))
  }

  predicate DoCallPaused(s: State, s': State, t: Id) {
    && t in s.calls && s.calls[t].Waiting? && s.calls[t].trigger in s.p.closed
    && s' == SetCall(s, t, Fresh(s.calls[t].side))
  }

  predicate DoCallClosed(s: State, s': State, t: Id) {
    && t in s.calls && s.calls[t].Waiting? && s.closed
    && s' == SetCall(s, t, Ended(s.calls[t].side, false))
  }

  /** A waiting call and an offering poll of the same side meet on the channel. */
  predicate DoMeet(s: State, s': State, t: Id, f: Id) {
    && t in s.calls && s.calls[t].Waiting? && f in s.polls && s.polls[f].Offering?
    && var side := s.calls[t].side;
    && s.polls[f].side == side
    && s' == s.(polls := s.polls[f := Awaiting(side, t, false)], calls := s.calls[t := Out(side, f, Got)],
                log := s.log + [HandOver(Old, side, t)])
  }

  /** The first header of the input is read: the decoder keeps the reader, or the call is about to answer the error. */
  predicate DoReadHeader(s: State, s': State, t: Id, ok: bool) {
    && t in s.calls && s.calls[t].Out? && s.calls[t].side.Reading? && s.calls[t].stage == Got
    && s' == if ok then SetCall(s, t, s.calls[t].(stage := Started)).(decoder := Open(s.calls[t].poll))
             else SetCall(s, t, s.calls[t].(stage := Sent(false)))
  }

  /** A decoder that has a reader returns its open frame. */
  predicate DoReadAgain(s: State, s': State, t: Id) {
    && t in s.calls && s.calls[t].Snapped? && s.calls[t].conn.Old? && s.calls[t].side.Reading? && s.decoder.Open?
    && s' == SetCall(s, t, Out(Reading, s.decoder.poll, Started))
  }

  /** `Close` of the decoder: at the next header all is well and nothing is answered; at the clean end the decoder
      lets go of its reader; after an error it keeps it. */
  predicate DoReadClose(s: State, s': State, t: Id, end: FrameEnd) {
    && t in s.calls && s.calls[t].Out? && s.calls[t].side.Reading? && s.calls[t].stage == Started
    && s' == match end
             case MoreFrames => SetCall(s, t, Ended(Reading, true))
             case CleanEnd => SetCall(s, t, s.calls[t].(stage := Sent(true))).(decoder := Empty)
             case BadFrame => SetCall(s, t, s.calls[t].(stage := Sent(false)))
  }

  /** The answering loop of a reader, which stores nothing. */
  predicate DoPutArm(s: State, s': State, t: Id) {
    && t in s.calls && s.calls[t].Out? && s.calls[t].side.Reading? && s.calls[t].stage.Sent? && Reading !in s.late
    && var ok := s.calls[t].stage.ok;
    && s' == SetCall(s, t, s.calls[t].(stage := Stored(ok, ok)))
  }

  predicate DoCallBegin(s: State, s': State, t: Id) {
    && t in s.calls && s.calls[t].Out? && s.calls[t].side.Writing? && s.calls[t].stage == Got
    && s' == s.(calls := s.calls[t := s.calls[t].(stage := Started)], rawWriter := s.calls[t].poll, frameOwner := t)
  }

  /** `Close` of the packet writer: the shared encoder writes the frame it caches to the writer it has. */
  predicate DoCallWrite(s: State, s': State, t: Id, ok: bool) {
    && t in s.calls && s.calls[t].Out? && s.calls[t].side.Writing? && s.calls[t].stage == Started
    && s.rawWriter in s.resp
    && var item := if ok then PacketOf(s.frameOwner) else PartOf(s.frameOwner);
    && s' == s.(calls := s.calls[t := s.calls[t].(stage := Sent(ok))],
                resp := s.resp[s.rawWriter := s.resp[s.rawWriter] + [item]],
                wire := if ok then s.wire + [(Old, s.frameOwner)] else s.wire)
  }

  /** The answering loop of a writer stores its outcome. */
  predicate DoCallStore(s: State, s': State, t: Id, eof: bool) {
    && t in s.calls && s.calls[t].Out? && s.calls[t].side.Writing? && s.calls[t].stage.Sent? && Writing !in s.late
    && var ok := s.calls[t].stage.ok;
    && s' == s.(calls := s.calls[t := s.calls[t].(stage := Stored(ok, ok && !s.stored))],
                stored := s.stored || (!ok && !eof))
  }

  /** The timer of the waiting select fires, and the loop goes round. */
  predicate DoCallRearm(s: State, s': State, t: Id) {
    t in s.calls && s.calls[t].Waiting? && s' == SetCall(s, t, Armed(s.calls[t].side))
  }

  /** The deadline has passed before anything was handed over; the session does not retry. */
  predicate DoCallTimeout(s: State, s': State, t: Id) {
    && t in s.calls && s.calls[t].Armed? && s.calls[t].side in s.late
    && s' == SetCall(s, t, Ended(s.calls[t].side, false)).(stored := true)
  }

  /** The timer of the answering select fires, and the loop goes round. */
  predicate DoPutRearm(s: State, s': State, t: Id) {
    && t in s.calls && s.calls[t].Out? && s.calls[t].stage.Stored?
    && s' == SetCall(s, t, s.calls[t].(stage := Sent(s.calls[t].stage.ok)))
  }

  /** The deadline has passed at the top of the answering loop: the call lets go without an answer. */
  predicate DoCallGiveUp(s: State, s': State, t: Id) {
    && t in s.calls && s.calls[t].Out? && s.calls[t].stage.Sent? && s.calls[t].side in s.late
    && s' == SetCall(s, t, Ended(s.calls[t].side, false)).(stored := true)
  }

  /** The reply goes to whichever poll of this side sits in its second select. */
  predicate DoAnswer(s: State, s': State, t: Id, f: Id, ok: bool) {
    && t in s.calls && ReadyToAnswer(s.calls[t], ok)
    && f in s.polls && s.polls[f].Awaiting? && s.polls[f].armed
    && var side := s.calls[t].side;
    && s.polls[f].side == side
    && s' == s.(polls := s.polls[f := Received(side, ok)],
                calls := s.calls[t := Ended(side, s.calls[t].stage.success)])
  }

  predicate DoCallDropped(s: State, s': State, t: Id) {
    && t in s.calls && s.calls[t].Out? && (s.calls[t].stage.Sent? || s.calls[t].stage.Stored?)
    && s.closed && s' == SetCall(s, t, Ended(s.calls[t].side, false))
  }

  predicate DoNewOpen(s: State, s': State, t: Id) {
    && t in s.calls && s.calls[t].Snapped? && s.calls[t].conn.New?
    && var (side, conn) := (s.calls[t].side, s.calls[t].conn);
    && s' == s.(calls := s.calls[t := OutNew(side, conn.attempt)], log := s.log + [HandOver(conn, side, t)])
  }

  predicate DoNewFail(s: State, s': State, t: Id) {
    && t in s.calls && s.calls[t].Snapped? && s.calls[t].conn.New?
    && s' == SetCall(s, t, Ended(s.calls[t].side, false))
  }

  predicate DoNewClose(s: State, s': State, t: Id, ok: bool) {
    && t in s.calls && s.calls[t].OutNew?
    && var (side, attempt) := (s.calls[t].side, s.calls[t].attempt);
    && s' == s.(calls := s.calls[t := Ended(side, ok)],
                wire := if ok && side.Writing? then s.wire + [(New(attempt), t)] else s.wire)
  }

  predicate CallNext(s: State, s': State, step: CallStep) {
    match step
    case CallStart(t, side) => DoCallStart(s, s', t, side)
    case CallSnapshot(t) => DoCallSnapshot(s, s', t)
    case CallCheck(t) => DoCallCheck(s, s', t)
    case CallWork(t) => DoCallWork(s, s', t)
    case CallRefused(t) => DoCallRefused(s, s', t)
    case CallDone(t) => DoCallDone(s, s', t)
    case CallArm(t) => DoCallArm(s, s', t)
    case CallPaused(t) => DoCallPaused(s, s', t)
    case CallClosed(t) => DoCallClosed(s, s', t)
    case Meet(t, f) => DoMeet(s, s', t, f)
    case ReadHeader(t, ok) => DoReadHeader(s, s', t, ok)
    case ReadAgain(t) => DoReadAgain(s, s', t)
    case ReadClose(t, end) => DoReadClose(s, s', t, end)
    case PutArm(t) => DoPutArm(s, s', t)
    case CallBegin(t) => DoCallBegin(s, s', t)
    case CallWrite(t, ok) => DoCallWrite(s, s', t, ok)
    case CallStore(t, eof) => DoCallStore(s, s', t, eof)
    case CallRearm(t) => DoCallRearm(s, s', t)
    case CallTimeout(t) => DoCallTimeout(s, s', t)
    case PutRearm(t) => DoPutRearm(s, s', t)
    case CallGiveUp(t) => DoCallGiveUp(s, s', t)
    case Answer(t, f, ok) => DoAnswer(s, s', t, f, ok)
    case CallDropped(t) => DoCallDropped(s, s', t)
    case NewOpen(t) => DoNewOpen(s, s', t)
    case NewFail(t) => DoNewFail(s, s', t)
    case NewClose(t, ok) => DoNewClose(s, s', t, ok)
  }

  // ---------- the upgrader ----------

  datatype UpgradeStep = Start | Abort | Pause | Wake | Fail | Swap | CloseOld | CloseSession

  /** What the upgrader does with the outcome of a lock section of `Pause`. */
  function PauseOutcome(s: State, r: (P.State, P.PauseResult), attempt: nat): State {
    if r.1.Waiting? then s.(p := r.0, upgrader := Pausing(attempt))
    else s.(p := r.0, upgrader := Frozen(attempt), log := s.log + [PauseReturned])
  }

  predicate DoPause(s: State, s': State)
    requires P.Inv(s.p)
  {
    && s.upgrader.Probing? && s.conn.Old? && UPGRADER !in s.p.sleeping && UPGRADER !in s.p.woken
    && s' == PauseOutcome(s, P.PauseEnter(s.p, UPGRADER), s.upgrader.attempt)
  }

  predicate DoWake(s: State, s': State)
    requires P.Inv(s.p)
  {
    && s.upgrader.Pausing? && UPGRADER in s.p.woken
    && s' == PauseOutcome(s, P.PauseWake(s.p, UPGRADER), s.upgrader.attempt)
  }

  predicate DoFail(s: State, s': State) {
    s.upgrader.Frozen? && s' == s.(p := P.Resume(s.p), upgrader := Idle, log := s.log + [Resumed])
  }

  predicate DoSwap(s: State, s': State) {
    && s.upgrader.Frozen?
    && var k := s.upgrader.attempt;
    && s' == s.(conn := New(k), upgrader := Swapped(k), log := s.log + [SwappedTo(k)])
  }

  predicate DoStart(s: State, s': State) {
    s.upgrader.Idle? && s' == s.(upgrader := Probing(s.attempts), attempts := s.attempts + 1)
  }

  predicate DoAbort(s: State, s': State) {
    s.upgrader.Probing? && s' == s.(upgrader := Idle)
  }

  predicate DoCloseOld(s: State, s': State) {
    s.upgrader.Swapped? && s' == s.(closed := true, upgrader := Idle)
  }

  predicate DoCloseSession(s: State, s': State) {
    s' == s.(closed := s.closed || s.conn.Old?)
  }

  predicate UpgradeNext(s: State, s': State, step: UpgradeStep)
    requires P.Inv(s.p)
  {
    match step
    case Start => DoStart(s, s')
    case Abort => DoAbort(s, s')
    case Pause => DoPause(s, s')
    case Wake => DoWake(s, s')
    case Fail => DoFail(s, s')
    case Swap => DoSwap(s, s')
    case CloseOld => DoCloseOld(s, s')
    case CloseSession => DoCloseSession(s, s')
  }

  // ---------- deadlines ----------

  /** The deadline of a side passes, or is set to a later moment; after the swap the session sets those of the new
      connection. */
  datatype ClockStep = Pass(side: Side) | SetDeadline(side: Side)

  predicate ClockNext(s: State, s': State, step: ClockStep) {
    match step
    case Pass(side) => s' == s.(late := s.late + {side})
    case SetDeadline(side) => s.conn.Old? && s' == s.(late := s.late - {side})
  }

  // ---------- runs ----------

  datatype Step =
    | OfPoll(poll: PollStep)
    | OfCall(call: CallStep)
    | OfUpgrade(upgrade: UpgradeStep)
    | OfClock(clock: ClockStep)

  predicate Next(s: State, s': State, step: Step)
    requires P.Inv(s.p)
  {
    match step
    case OfPoll(x) => PollNext(s, s', x)
    case OfCall(x) => CallNext(s, s', x)
    case OfUpgrade(x) => UpgradeNext(s, s', x)
    case OfClock(x) => ClockNext(s, s', x)
  }

  /** Neighbouring states are one step apart. */
  predicate Linked(states: seq<State>, steps: seq<Step>) {
    && |states| == |steps| + 1
    && forall i :: 0 <= i < |steps| ==> P.Inv(states[i].p) && Next(states[i], states[i + 1], steps[i])
  }

  /** A run of the system. */
  predicate Run(states: seq<State>, steps: seq<Step>) {
    Linked(states, steps) && states[0] == INITIAL
  }
}
