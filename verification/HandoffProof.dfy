/** What every interleaving of `Handoff` keeps, one invariant at a time. */
module HandoffProof {
  import P = Pauser
  import opened Handoff

  // ---------- invariants ----------

  /** The poll has called `Working` and not yet `Done`. */
  ghost predicate HoldsToken(ph: Poll) {
    ph.Holding? || ph.Offering? || ph.Awaiting? || ph.Received? || ph.Returning?
  }

  /** The poll owns the flag of its side. */
  ghost predicate Claims(ph: Poll) {
    HoldsToken(ph) || ph.Claimed? || ph.Leaving?
  }

  ghost function PollTokens(polls: map<Id, Poll>): set<Id> { set f | f in polls && HoldsToken(polls[f]) }

  ghost function CallTokens(calls: map<Id, Call>): set<Id> { set t | t in calls && calls[t].Token? }

  /** The worker count is the number of live tokens. */
  ghost predicate Counted(worker: nat, polls: map<Id, Poll>, calls: map<Id, Call>) {
    worker == |PollTokens(polls)| + |CallTokens(calls)|
  }

  ghost predicate ClaimsSide(polls: map<Id, Poll>, f: Id, side: Side) {
    f in polls && polls[f].side == side && Claims(polls[f])
  }

  /** A claim is visible in the flag of its side, and there is one claim per side. */
  ghost predicate OneClaim(s: State) {
    && (forall f, side :: ClaimsSide(s.polls, f, side) ==> side in s.busy)
    && (forall f, g, side :: ClaimsSide(s.polls, f, side) && ClaimsSide(s.polls, g, side) ==> f == g)
  }

  /** The call holds the reader or writer of this poll. */
  ghost predicate Holds(calls: map<Id, Call>, t: Id, f: Id, side: Side) {
    t in calls && calls[t].Out? && calls[t].poll == f && calls[t].side == side
  }

  ghost predicate HoldsAny(calls: map<Id, Call>, t: Id, side: Side) {
    t in calls && calls[t].Out? && calls[t].side == side
  }

  /** The payload was closed or has an error. */
  ghost predicate Broken(s: State) { s.closed || s.stored }

  /** Nobody else waits for this poll's reply, and the poll waits for the call. */
  ghost predicate WaitsFor(polls: map<Id, Poll>, f: Id, side: Side, t: Id) {
    f in polls && polls[f].Awaiting? && polls[f].side == side && polls[f].partner == t
  }

  /** A flush gives up while its writer is still out. */
  ghost predicate Abandons(s: State, step: Step) {
    && step.OfPoll? && step.poll.PollGiveUp? && step.poll.f in s.polls
    && var ph := s.polls[step.poll.f];
    && ph.Awaiting? && ph.side.Writing? && Holds(s.calls, ph.partner, step.poll.f, Writing)
  }

  /** Whoever holds a poll's writer is the partner that poll waits for, and the other way round unless the partner
      let go because the payload was closed or a deadline passed. */
  ghost predicate Matched(polls: map<Id, Poll>, calls: map<Id, Call>, broken: bool) {
    && (forall t, f :: Holds(calls, t, f, Writing) ==> WaitsFor(polls, f, Writing, t))
    && (forall f :: f in polls && polls[f].Awaiting? && polls[f].side.Writing? ==>
                      broken || Holds(calls, polls[f].partner, f, Writing))
  }

  ghost predicate AwaitsRead(polls: map<Id, Poll>, f: Id) {
    f in polls && polls[f].Awaiting? && polls[f].side.Reading?
  }

  /** A call between the start of `NextReader` and the `Close` of what it returned. */
  ghost predicate Reads(calls: map<Id, Call>, t: Id) {
    t in calls && calls[t].side.Reading? && !calls[t].Ended?
  }

  /** The decoder is empty from the moment the call finds it so until it has read a header, then has the call's own
      reader until the clean end. */
  ghost predicate DecoderFits(decoder: Decoder, ph: Call) {
    && (ph.Checked? || ph.Token? || ph.Armed? || ph.Waiting? ==> decoder.Empty?)
    && (ph.Out? ==> match ph.stage
                    case Got => decoder.Empty?
                    case Started => decoder == Open(ph.poll)
                    case Sent(ok) => decoder.Empty? || (!ok && decoder == Open(ph.poll))
                    case Stored(ok, _) => decoder.Empty? || (!ok && decoder == Open(ph.poll)))
  }

  /** One call reads at a time, and a feed that waits for its reply is the one whose reader is in use. */
  ghost predicate Reader(decoder: Decoder, polls: map<Id, Poll>, calls: map<Id, Call>) {
    && (forall t, u :: Reads(calls, t) && Reads(calls, u) ==> t == u)
    && (forall t :: Reads(calls, t) ==> DecoderFits(decoder, calls[t]))
    && (forall f, t :: AwaitsRead(polls, f) && Reads(calls, t) && calls[t].Out? ==> calls[t].poll == f)
    && (forall f :: AwaitsRead(polls, f) && decoder.Open? ==> decoder.poll == f)
  }

  /** A feed gives up while its reader is in use, or a reply leaves the decoder its reader. */
  ghost predicate Strands(s: State, step: Step) {
    || (step.OfPoll? && step.poll.PollGiveUp? && AwaitsRead(s.polls, step.poll.f)
        && (s.decoder == Open(step.poll.f) || exists t :: Holds(s.calls, t, step.poll.f, Reading)))
    || (step.OfCall? && step.call.Answer? && HoldsAny(s.calls, step.call.t, Reading) && s.decoder.Open?)
  }

  /** The step lets a poll of this side go while what it handed over stays out. */
  ghost predicate Loses(s: State, step: Step, side: Side) {
    if side.Writing? then Abandons(s, step) else Strands(s, step)
  }

  /** A feed waits for every reader that is in use. */
  ghost predicate Attended(decoder: Decoder, polls: map<Id, Poll>, calls: map<Id, Call>) {
    && (decoder.Open? ==> AwaitsRead(polls, decoder.poll))
    && (forall t :: HoldsAny(calls, t, Reading) ==> AwaitsRead(polls, calls[t].poll))
  }

  /** The barrier is paused exactly while the upgrader has frozen the payload or replaced it. */
  ghost predicate BarrierPhase(p: P.State, upgrader: Upgrader, conn: Conn) {
    && P.Inv(p)
    && (p.status == P.Paused <==> upgrader.Frozen? || conn.New?)
    && (upgrader.Frozen? || upgrader.Pausing? ==> conn.Old?)
    && (upgrader.Swapped? ==> conn == New(upgrader.attempt))
    && (p.status == P.Pausing ==> upgrader.Pausing?)
    && p.sleeping + p.woken == (if upgrader.Pausing? then {UPGRADER} else {})
  }

  /** A call that copied the new connection copied the installed one. */
  ghost predicate Snapshots(calls: map<Id, Call>, conn: Conn) {
    forall t :: t in calls ==>
      && (calls[t].Snapped? && calls[t].conn.New? ==> conn == calls[t].conn)
      && (calls[t].OutNew? ==> conn == New(calls[t].attempt))
  }

  /** What holds in every run, whatever deadlines pass. */
  ghost predicate Core(s: State) {
    && BarrierPhase(s.p, s.upgrader, s.conn)
    && Counted(s.p.worker, s.polls, s.calls)
    && OneClaim(s)
    && Snapshots(s.calls, s.conn)
    && Reader(s.decoder, s.polls, s.calls)
    && s.resp.Keys == s.polls.Keys
  }

  /** What holds as long as no flush gives up while its writer is out. */
  ghost predicate Inv(s: State) {
    Core(s) && Matched(s.polls, s.calls, Broken(s))
  }

  // ---------- counting ----------

  ghost function Tok(b: bool): int { if b then 1 else 0 }

  ghost function PollTok(polls: map<Id, Poll>, f: Id): int { Tok(f in polls && HoldsToken(polls[f])) }

  ghost function CallTok(calls: map<Id, Call>, t: Id): int { Tok(t in calls && calls[t].Token?) }

  lemma PollTokensUpdate(polls: map<Id, Poll>, f: Id, ph: Poll)
    ensures |PollTokens(polls[f := ph])| == |PollTokens(polls)| + Tok(HoldsToken(ph)) - PollTok(polls, f)
  {
    var a, b := PollTokens(polls), PollTokens(polls[f := ph]);
    assert b == if HoldsToken(ph) then a + {f} else a - {f};
    assert f in a <==> PollTok(polls, f) == 1;
  }

  lemma CallTokensUpdate(calls: map<Id, Call>, t: Id, ph: Call)
    ensures |CallTokens(calls[t := ph])| == |CallTokens(calls)| + Tok(ph.Token?) - CallTok(calls, t)
  {
    var a, b := CallTokens(calls), CallTokens(calls[t := ph]);
    assert b == if ph.Token? then a + {t} else a - {t};
    assert t in a <==> CallTok(calls, t) == 1;
  }

  lemma TokenCounts(worker: nat, polls: map<Id, Poll>, calls: map<Id, Call>)
    requires Counted(worker, polls, calls)
    ensures forall f :: PollTok(polls, f) <= worker
    ensures forall t :: CallTok(calls, t) <= worker
  {
    forall f ensures PollTok(polls, f) <= worker {
      assert f in polls && HoldsToken(polls[f]) ==> f in PollTokens(polls);
    }
    forall t ensures CallTok(calls, t) <= worker {
      assert t in calls && calls[t].Token? ==> t in CallTokens(calls);
    }
  }

  // ---------- what a step does, apart from where it comes from ----------

  /** The barrier gained `delta` workers, or nothing happened to it. */
  ghost predicate WorkerMove(p: P.State, p': P.State, delta: int) {
    || (delta == 0 && p' == p)
    || (delta == 1 && p.status != P.Paused && p' == p.(worker := p.worker + 1))
    || (delta == -1 && p' == P.Done(p))
  }

  /** A poll moves from phase to phase on its own side, and only a rendezvous makes it wait for a reply; it touches
      neither calls nor decoder nor connection. */
  ghost predicate PollEffect(s: State, s': State, f: Id) {
    && f in s'.polls && s'.polls == s.polls[f := s'.polls[f]]
    && s'.calls == s.calls && s'.closed == s.closed && (s.stored ==> s'.stored)
    && s'.conn == s.conn && s'.upgrader == s.upgrader
    && s'.log == s.log && s'.wire == s.wire && s'.rawWriter == s.rawWriter && s'.frameOwner == s.frameOwner
    && s'.decoder == s.decoder && s'.late == s.late
    && WorkerMove(s.p, s'.p, Tok(HoldsToken(s'.polls[f])) - PollTok(s.polls, f))
    && (s'.polls[f].Awaiting? ==> WaitsFor(s.polls, f, s'.polls[f].side, s'.polls[f].partner))
  }

  /** A claim appears only where the flag was down, and only its end takes the flag down. */
  ghost predicate ClaimEffect(s: State, s': State, f: Id) {
    && f in s'.polls
    && var side := s'.polls[f].side;
    && (f in s.polls ==> s.polls[f].side == side)
    && if Claims(s'.polls[f]) && !ClaimsSide(s.polls, f, side) then side !in s.busy && s'.busy == s.busy + {side}
       else if ClaimsSide(s.polls, f, side) && !Claims(s'.polls[f]) then s'.busy == s.busy - {side}
       else s'.busy == s.busy
  }

  /** What a poll's response holds in each phase. */
  ghost predicate RespFits(f: Id, ph: Poll, r: seq<Item>, calls: map<Id, Call>) {
    match ph
    case Entered(_) => r == []
    case Claimed(_) => r == []
    case Holding(_) => r == []
    case Offering(_, _) => r == []
    case Awaiting(side, t, _) =>
      if side.Reading? then r == [] else Holds(calls, t, f, Writing) ==> StageFits(t, calls[t].stage, r)
    case Received(side, ok) => if side.Reading? then r == [] else OnePacket(r, ok)
    case Returning(side, result) => ResultFits(side, result, r)
    case Leaving(side, result) => ResultFits(side, result, r)
    case Finished(side, result) => ResultFits(side, result, r)
  }

  ghost predicate StageFits(t: Id, stage: Stage, r: seq<Item>) {
    match stage
    case Got => r == []
    case Started => r == []
    case Sent(ok) => r == [if ok then PacketOf(t) else PartOf(t)]
    case Stored(ok, success) => r == [if ok then PacketOf(t) else PartOf(t)] && (success ==> ok)
  }

  ghost predicate OnePacket(r: seq<Item>, ok: bool) {
    |r| == 1 && if ok then r[0].PacketOf? else r[0].PartOf?
  }

  ghost predicate ResultFits(side: Side, result: PollResult, r: seq<Item>) {
    if side.Reading? then r == [] && !result.NoopSent?
    else match result
         case Answered(ok) => ok ==> OnePacket(r, true)
         case NoopSent(ok) => r == [if ok then Noop else PartNoop]
         case TimedOut => true
         case _ => r == []
  }

  ghost predicate RespKept(s: State, s': State, f: Id) {
    && f in s'.resp && f in s'.polls && s'.resp == s.resp[f := s'.resp[f]]
    && ((f in s.polls ==> f in s.resp && RespFits(f, s.polls[f], s.resp[f], s.calls))
        ==> RespFits(f, s'.polls[f], s'.resp[f], s'.calls))
  }

  /** A poll on its own adds nothing to its response but a NOOP. */
  ghost predicate AddsNoPacket(s: State, s': State, f: Id) {
    && f in s'.resp
    && if f in s.resp && f in s.polls
       then s'.resp[f] == s.resp[f] || s'.resp[f] == s.resp[f] + [Noop] || s'.resp[f] == s.resp[f] + [PartNoop]
       else s'.resp[f] == []
  }

  ghost predicate PollMove(s: State, s': State, f: Id) {
    PollEffect(s, s', f) && ClaimEffect(s, s', f) && RespKept(s, s', f) && AddsNoPacket(s, s', f)
  }

  lemma PollStartMoves(s: State, s': State, f: Id, side: Side)
    ensures DoPollStart(s, s', f, side) ==> PollMove(s, s', f)
  {
  }

  lemma PollClaimMoves(s: State, s': State, f: Id)
    requires DoPollClaim(s, s', f)
    ensures PollMove(s, s', f)
  {
  }

  lemma PollWorkMoves(s: State, s': State, f: Id)
    ensures DoPollWork(s, s', f) ==> PollMove(s, s', f)
  {
  }

  lemma FeedRefuseMoves(s: State, s': State, f: Id)
    ensures DoFeedRefuse(s, s', f) ==> PollMove(s, s', f)
  {
  }

  lemma FlushRefuseMoves(s: State, s': State, f: Id, written: bool)
    ensures DoFlushRefuse(s, s', f, written) ==> PollMove(s, s', f)
  {
  }

  lemma PollArmMoves(s: State, s': State, f: Id)
    ensures DoPollArm(s, s', f) ==> PollMove(s, s', f)
  {
  }

  lemma PollNoopMoves(s: State, s': State, f: Id, written: bool)
    ensures DoPollNoop(s, s', f, written) ==> PollMove(s, s', f)
  {
  }

  lemma PollClosedMoves(s: State, s': State, f: Id)
    ensures DoPollClosed(s, s', f) ==> PollMove(s, s', f)
  {
  }

  lemma PollRearmMoves(s: State, s': State, f: Id)
    ensures DoPollRearm(s, s', f) ==> PollMove(s, s', f)
  {
  }

  lemma PollTimeoutMoves(s: State, s': State, f: Id)
    ensures DoPollTimeout(s, s', f) ==> PollMove(s, s', f)
  {
  }

  lemma PollAwaitMoves(s: State, s': State, f: Id)
    ensures DoPollAwait(s, s', f) ==> PollMove(s, s', f)
  {
  }

  lemma PollRelookMoves(s: State, s': State, f: Id)
    ensures DoPollRelook(s, s', f) ==> PollMove(s, s', f)
  {
  }

  lemma PollGiveUpMoves(s: State, s': State, f: Id)
    ensures DoPollGiveUp(s, s', f) ==> PollMove(s, s', f)
  {
  }

  lemma PollStoreMoves(s: State, s': State, f: Id, eof: bool)
    ensures DoPollStore(s, s', f, eof) ==> PollMove(s, s', f)
  {
  }

  lemma PollDoneMoves(s: State, s': State, f: Id)
    ensures DoPollDone(s, s', f) ==> PollMove(s, s', f)
  {
  }

  lemma PollReleaseMoves(s: State, s': State, f: Id)
    ensures DoPollRelease(s, s', f) ==> PollMove(s, s', f)
  {
  }

  lemma PollMoves(s: State, s': State, step: PollStep)
    requires PollNext(s, s', step)
    ensures PollMove(s, s', step.f)
  {
    match step
    case PollStart(f, side) => PollStartMoves(s, s', f, side);
    case PollClaim(f) => PollClaimMoves(s, s', f);
    case PollWork(f) => PollWorkMoves(s, s', f);
    case FeedRefuse(f) => FeedRefuseMoves(s, s', f);
    case FlushRefuse(f, written) => FlushRefuseMoves(s, s', f, written);
    case PollArm(f) => PollArmMoves(s, s', f);
    case PollNoop(f, written) => PollNoopMoves(s, s', f, written);
    case PollClosed(f) => PollClosedMoves(s, s', f);
    case PollRearm(f) => PollRearmMoves(s, s', f);
    case PollTimeout(f) => PollTimeoutMoves(s, s', f);
    case PollAwait(f) => PollAwaitMoves(s, s', f);
    case PollRelook(f) => PollRelookMoves(s, s', f);
    case PollGiveUp(f) => PollGiveUpMoves(s, s', f);
    case PollStore(f, eof) => PollStoreMoves(s, s', f, eof);
    case PollDone(f) => PollDoneMoves(s, s', f);
    case PollRelease(f) => PollReleaseMoves(s, s', f);
  }

  // ---------- poll steps ----------

  lemma WorkerMoveKeepsBarrier(p: P.State, p': P.State, delta: int, upgrader: Upgrader, conn: Conn)
    requires BarrierPhase(p, upgrader, conn) && WorkerMove(p, p', delta)
    ensures BarrierPhase(p', upgrader, conn)
  {
  }

  lemma WorkerMoveCounts(p: P.State, p': P.State, delta: int)
    requires P.Inv(p) && WorkerMove(p, p', delta) && p.worker + delta >= 0
    ensures p'.worker == p.worker + delta
  {
  }

  lemma PollKeepsCount(s: State, s': State, f: Id)
    requires P.Inv(s.p) && Counted(s.p.worker, s.polls, s.calls) && PollEffect(s, s', f)
    ensures Counted(s'.p.worker, s'.polls, s'.calls)
  {
    TokenCounts(s.p.worker, s.polls, s.calls);
    PollTokensUpdate(s.polls, f, s'.polls[f]);
    WorkerMoveCounts(s.p, s'.p, Tok(HoldsToken(s'.polls[f])) - PollTok(s.polls, f));
  }

  lemma ClaimEffectKeepsClaim(s: State, s': State, f: Id)
    requires OneClaim(s) && PollEffect(s, s', f) && ClaimEffect(s, s', f)
    ensures OneClaim(s')
  {
    forall g, side | ClaimsSide(s'.polls, g, side)
      ensures side in s'.busy
    {
      if g != f {
        assert ClaimsSide(s.polls, g, side);
      }
    }
    forall g, h, side | ClaimsSide(s'.polls, g, side) && ClaimsSide(s'.polls, h, side)
      ensures g == h
    {
      if g != f { assert ClaimsSide(s.polls, g, side); }
      if h != f { assert ClaimsSide(s.polls, h, side); }
    }
  }

  /** A flush whose writer is out goes on waiting. */
  ghost predicate StaysHeld(s: State, s': State, f: Id) {
    && f in s'.polls
    && (f in s.polls && s.polls[f].Awaiting? && s.polls[f].side.Writing?
        && Holds(s.calls, s.polls[f].partner, f, Writing)
        ==> WaitsFor(s'.polls, f, Writing, s.polls[f].partner))
  }

  lemma PollStaysHeld(s: State, s': State, step: PollStep)
    requires PollNext(s, s', step) && !Abandons(s, OfPoll(step))
    ensures StaysHeld(s, s', step.f)
  {
  }

  lemma PollKeepsMatch(s: State, s': State, f: Id)
    requires Matched(s.polls, s.calls, Broken(s)) && PollEffect(s, s', f) && StaysHeld(s, s', f)
    ensures Matched(s'.polls, s'.calls, Broken(s'))
  {
  }

  lemma PollKeepsReader(s: State, s': State, f: Id)
    requires Reader(s.decoder, s.polls, s.calls) && PollEffect(s, s', f)
    ensures Reader(s'.decoder, s'.polls, s'.calls)
  {
    forall g | AwaitsRead(s'.polls, g) ensures AwaitsRead(s.polls, g) {}
  }

  lemma PollKeepsCore(s: State, s': State, step: PollStep)
    requires Core(s) && PollNext(s, s', step)
    ensures Core(s')
  {
    PollMoves(s, s', step);
    var f := step.f;
    WorkerMoveKeepsBarrier(s.p, s'.p, Tok(HoldsToken(s'.polls[f])) - PollTok(s.polls, f), s.upgrader, s.conn);
    PollKeepsCount(s, s', f);
    ClaimEffectKeepsClaim(s, s', f);
    PollKeepsReader(s, s', f);
  }

  // ---------- call steps ----------

  /** A writing call leaves the decoder alone. A reading call is the only one, and keeps the decoder fitting; it
      reads from the reader it has or from that of the decoder, and gives the decoder no other. */
  ghost predicate ReadEffect(s: State, s': State, t: Id) {
    && t in s'.calls && (t in s.calls ==> s.calls[t].side == s'.calls[t].side)
    && var ph' := s'.calls[t];
    && (ph'.side.Writing? ==> s'.decoder == s.decoder)
    && (ph'.side.Reading? ==> if t in s.calls then ReadMove(s.decoder, s'.decoder, s.calls[t], ph')
                              else NobodyReads(s.calls) && ph'.Fresh? && s'.decoder == s.decoder)
  }

  ghost predicate ReadMove(decoder: Decoder, decoder': Decoder, ph: Call, ph': Call) {
    && !ph.Ended?
    && (DecoderFits(decoder, ph) ==> DecoderFits(decoder', ph'))
    && (decoder'.Open? ==> decoder' == decoder || (ph.Out? && decoder'.poll == ph.poll))
    && (ph'.Out? ==> (ph.Out? && ph'.poll == ph.poll) || decoder == Open(ph'.poll) || ph.Waiting?)
  }

  /** A call between the check of a closed payload and the waiting select. */
  ghost predicate BehindCheck(ph: Call) {
    ph.Checked? || ph.Token? || ph.Armed? || ph.Waiting?
  }

  /** A call moves from phase to phase, through the check only while the payload is open; it touches neither flags
      nor connection. */
  ghost predicate CallEffect(s: State, s': State, t: Id) {
    && t in s'.calls && s'.calls == s.calls[t := s'.calls[t]]
    && s'.busy == s.busy && s'.closed == s.closed && (s.stored ==> s'.stored)
    && s'.conn == s.conn && s'.upgrader == s.upgrader
    && WorkerMove(s.p, s'.p, Tok(s'.calls[t].Token?) - CallTok(s.calls, t))
    && (Snapshots(s.calls, s.conn) ==> Snapshots(map[t := s'.calls[t]], s.conn))
    && ReadEffect(s, s', t) && s'.late == s.late && s'.resp.Keys == s.resp.Keys
    && (s.closed && BehindCheck(s'.calls[t]) ==> t in s.calls && BehindCheck(s.calls[t]))
  }

  /** The polls stay as they are, and so does the writer the call holds, unless a close or a deadline makes it let
      go. A reader it did not have is that of the decoder. */
  ghost predicate Apart(s: State, s': State, t: Id) {
    && s'.polls == s.polls
    && (HoldsAny(s'.calls, t, Writing) ==> Holds(s.calls, t, s'.calls[t].poll, Writing))
    && (HoldsAny(s.calls, t, Writing) ==> HoldsAny(s'.calls, t, Writing) || Broken(s'))
    && (HoldsAny(s'.calls, t, Reading) ==>
          Holds(s.calls, t, s'.calls[t].poll, Reading) || s.decoder == Open(s'.calls[t].poll))
  }

  /** The call holds a writer and has put its whole packet on the wire. */
  ghost predicate HasWritten(ph: Call) {
    ph.Out? && ph.side.Writing? && match ph.stage
                                   case Sent(ok) => ok
                                   case Stored(ok, _) => ok
                                   case _ => false
  }

  /** The call cannot be handed a reader or writer any more. */
  ghost predicate HandedOver(ph: Call) {
    ph.Out? || ph.OutNew? || ph.Ended?
  }

  /** Log, wire, responses and encoder stay as they are, and no packet is claimed or forgotten. */
  ghost predicate Quiet(s: State, s': State, t: Id) {
    && s'.log == s.log && s'.wire == s.wire && s'.resp == s.resp
    && s'.rawWriter == s.rawWriter && s'.frameOwner == s.frameOwner
    && t in s'.calls && QuietPhase(if t in s.calls then s.calls[t] else Fresh(s'.calls[t].side), s'.calls[t])
  }

  ghost predicate QuietPhase(ph: Call, ph': Call) {
    && ph'.side == ph.side
    && (HasWritten(ph') ==> HasWritten(ph))
    && (HasWritten(ph) ==> HasWritten(ph') || ph'.Ended?)
    && (ph.Ended? ==> ph'.Ended?)
    && (HandedOver(ph) ==> HandedOver(ph'))
    && (ph'.OutNew? ==> ph' == ph)
    && (ph' == Ended(Writing, true) ==>
          ph == Ended(Writing, true) || (HasWritten(ph) && ph.stage.Stored? && ph.stage.success))
    && (ph'.Out? && ph'.side.Writing? && ph'.stage != Got ==> ph.Out? && ph.stage != Got)
    && (ph'.Out? && ph'.side.Writing? ==>
          ph.Out? && (ph'.stage == ph.stage || (ph.stage.Sent? && ph'.stage.Stored? && ph'.stage.ok == ph.stage.ok
                                                && (ph'.stage.success ==> ph.stage.ok))
                 || (ph.stage.Stored? && ph'.stage == Sent(ph.stage.ok))))
  }

  ghost predicate CallMove(s: State, s': State, t: Id) {
    CallEffect(s, s', t) && Apart(s, s', t)
  }

  lemma CallStartMoves(s: State, s': State, t: Id, side: Side)
    ensures DoCallStart(s, s', t, side) ==> CallMove(s, s', t) && Quiet(s, s', t)
  {
  }

  lemma CallSnapshotMoves(s: State, s': State, t: Id)
    ensures DoCallSnapshot(s, s', t) ==> CallMove(s, s', t) && Quiet(s, s', t)
  {
  }

  lemma CallCheckMoves(s: State, s': State, t: Id)
    ensures DoCallCheck(s, s', t) ==> CallMove(s, s', t) && Quiet(s, s', t)
  {
  }

  lemma CallWorkMoves(s: State, s': State, t: Id)
    ensures DoCallWork(s, s', t) ==> CallMove(s, s', t) && Quiet(s, s', t)
  {
  }

  lemma CallRefusedMoves(s: State, s': State, t: Id)
    ensures DoCallRefused(s, s', t) ==> CallMove(s, s', t) && Quiet(s, s', t)
  {
  }

  lemma CallDoneMoves(s: State, s': State, t: Id)
    ensures DoCallDone(s, s', t) ==> CallMove(s, s', t) && Quiet(s, s', t)
  {
  }

  lemma CallArmMoves(s: State, s': State, t: Id)
    ensures DoCallArm(s, s', t) ==> CallMove(s, s', t) && Quiet(s, s', t)
  {
  }

  lemma CallPausedMoves(s: State, s': State, t: Id)
    ensures DoCallPaused(s, s', t) ==> CallMove(s, s', t) && Quiet(s, s', t)
  {
  }

  lemma CallClosedMoves(s: State, s': State, t: Id)
    ensures DoCallClosed(s, s', t) ==> CallMove(s, s', t) && Quiet(s, s', t)
  {
  }

  lemma CallRearmMoves(s: State, s': State, t: Id)
    ensures DoCallRearm(s, s', t) ==> CallMove(s, s', t) && Quiet(s, s', t)
  {
  }

  lemma CallTimeoutMoves(s: State, s': State, t: Id)
    ensures DoCallTimeout(s, s', t) ==> CallMove(s, s', t) && Quiet(s, s', t)
  {
  }

  lemma PutRearmMoves(s: State, s': State, t: Id)
    ensures DoPutRearm(s, s', t) ==> CallMove(s, s', t) && Quiet(s, s', t)
  {
  }

  lemma CallGiveUpMoves(s: State, s': State, t: Id)
    ensures DoCallGiveUp(s, s', t) ==> CallMove(s, s', t) && Quiet(s, s', t)
  {
  }

  lemma CallStoreMoves(s: State, s': State, t: Id, eof: bool)
    ensures DoCallStore(s, s', t, eof) ==> CallMove(s, s', t) && Quiet(s, s', t)
  {
  }

  lemma ReadHeaderMoves(s: State, s': State, t: Id, ok: bool)
    ensures DoReadHeader(s, s', t, ok) ==> CallMove(s, s', t) && Quiet(s, s', t)
  {
  }

  lemma ReadAgainMoves(s: State, s': State, t: Id)
    ensures DoReadAgain(s, s', t) ==> CallMove(s, s', t) && Quiet(s, s', t)
  {
  }

  lemma ReadCloseMoves(s: State, s': State, t: Id, end: FrameEnd)
    ensures DoReadClose(s, s', t, end) ==> CallMove(s, s', t) && Quiet(s, s', t)
  {
  }

  lemma PutArmMoves(s: State, s': State, t: Id)
    ensures DoPutArm(s, s', t) ==> CallMove(s, s', t) && Quiet(s, s', t)
  {
  }

  lemma CallDroppedMoves(s: State, s': State, t: Id)
    ensures DoCallDropped(s, s', t) ==> CallMove(s, s', t) && Quiet(s, s', t)
  {
  }

  lemma NewFailMoves(s: State, s': State, t: Id)
    ensures DoNewFail(s, s', t) ==> CallMove(s, s', t) && Quiet(s, s', t)
  {
  }

  lemma CallBeginMoves(s: State, s': State, t: Id)
    ensures DoCallBegin(s, s', t) ==> CallMove(s, s', t)
  {
  }

  lemma CallWriteMoves(s: State, s': State, t: Id, ok: bool)
    ensures DoCallWrite(s, s', t, ok) ==> CallMove(s, s', t)
  {
  }

  lemma NewOpenMoves(s: State, s': State, t: Id)
    ensures DoNewOpen(s, s', t) ==> CallMove(s, s', t)
  {
  }

  lemma NewCloseMoves(s: State, s': State, t: Id, ok: bool)
    ensures DoNewClose(s, s', t, ok) ==> CallMove(s, s', t)
  {
  }

  /** The two rendezvous change a poll as well. */
  lemma MeetMoves(s: State, s': State, t: Id, f: Id)
    ensures DoMeet(s, s', t, f) ==> CallEffect(s, s', t)
  {
  }

  lemma AnswerMoves(s: State, s': State, t: Id, f: Id, ok: bool)
    ensures DoAnswer(s, s', t, f, ok) ==> CallEffect(s, s', t)
  {
  }

  /** The step is one of those that write, hand over or answer. */
  ghost predicate Noisy(step: CallStep) {
    step.Meet? || step.CallBegin? || step.CallWrite? || step.Answer? || step.NewOpen? || step.NewClose?
  }

  lemma QuietCallMoves(s: State, s': State, step: CallStep)
    requires CallNext(s, s', step) && !Noisy(step)
    ensures CallMove(s, s', step.t) && Quiet(s, s', step.t)
  {
    match step
    case CallStart(t, side) => CallStartMoves(s, s', t, side);
    case CallSnapshot(t) => CallSnapshotMoves(s, s', t);
    case CallCheck(t) => CallCheckMoves(s, s', t);
    case CallWork(t) => CallWorkMoves(s, s', t);
    case CallRefused(t) => CallRefusedMoves(s, s', t);
    case CallDone(t) => CallDoneMoves(s, s', t);
    case CallArm(t) => CallArmMoves(s, s', t);
    case CallPaused(t) => CallPausedMoves(s, s', t);
    case CallClosed(t) => CallClosedMoves(s, s', t);
    case CallStore(t, eof) => CallStoreMoves(s, s', t, eof);
    case ReadHeader(t, ok) => ReadHeaderMoves(s, s', t, ok);
    case ReadAgain(t) => ReadAgainMoves(s, s', t);
    case ReadClose(t, end) => ReadCloseMoves(s, s', t, end);
    case PutArm(t) => PutArmMoves(s, s', t);
    case CallRearm(t) => CallRearmMoves(s, s', t);
    case CallTimeout(t) => CallTimeoutMoves(s, s', t);
    case PutRearm(t) => PutRearmMoves(s, s', t);
    case CallGiveUp(t) => CallGiveUpMoves(s, s', t);
    case CallDropped(t) => CallDroppedMoves(s, s', t);
    case NewFail(t) => NewFailMoves(s, s', t);
  }

  lemma NoisyCallMoves(s: State, s': State, step: CallStep)
    requires CallNext(s, s', step) && Noisy(step)
    ensures CallEffect(s, s', step.t)
    ensures !step.Meet? && !step.Answer? ==> Apart(s, s', step.t)
  {
    match step
    case Meet(t, f) => MeetMoves(s, s', t, f);
    case CallBegin(t) => CallBeginMoves(s, s', t);
    case CallWrite(t, ok) => CallWriteMoves(s, s', t, ok);
    case Answer(t, f, ok) => AnswerMoves(s, s', t, f, ok);
    case NewOpen(t) => NewOpenMoves(s, s', t);
    case NewClose(t, ok) => NewCloseMoves(s, s', t, ok);
  }

  lemma CallMoves(s: State, s': State, step: CallStep)
    requires CallNext(s, s', step)
    ensures CallEffect(s, s', step.t)
    ensures !step.Meet? && !step.Answer? ==> Apart(s, s', step.t)
  {
    if Noisy(step) {
      NoisyCallMoves(s, s', step);
    } else {
      QuietCallMoves(s, s', step);
    }
  }

  lemma CallKeepsCount(s: State, s': State, t: Id)
    requires P.Inv(s.p) && Counted(s.p.worker, s.polls, s.calls) && CallEffect(s, s', t)
    requires |PollTokens(s'.polls)| == |PollTokens(s.polls)|
    ensures Counted(s'.p.worker, s'.polls, s'.calls)
  {
    TokenCounts(s.p.worker, s.polls, s.calls);
    CallTokensUpdate(s.calls, t, s'.calls[t]);
    WorkerMoveCounts(s.p, s'.p, Tok(s'.calls[t].Token?) - CallTok(s.calls, t));
  }

  /** A rendezvous swaps one claiming phase of a poll for another. */
  lemma SwapPhase(s: State, polls': map<Id, Poll>, f: Id, ph: Poll)
    requires f in s.polls && HoldsToken(s.polls[f]) && HoldsToken(ph) && ph.side == s.polls[f].side
    requires polls' == s.polls[f := ph]
    ensures |PollTokens(polls')| == |PollTokens(s.polls)|
    ensures forall g, side :: ClaimsSide(polls', g, side) <==> ClaimsSide(s.polls, g, side)
  {
    PollTokensUpdate(s.polls, f, ph);
  }

  /** With one claim per side, the reply a flush receives comes from its own partner. */
  lemma AnswerIsPartners(s: State, t: Id, f: Id)
    requires OneClaim(s) && Matched(s.polls, s.calls, Broken(s))
    requires HoldsAny(s.calls, t, Writing) && f in s.polls && s.polls[f].Awaiting? && s.polls[f].side == Writing
    ensures s.calls[t].poll == f && WaitsFor(s.polls, f, Writing, t)
  {
    assert Holds(s.calls, t, s.calls[t].poll, Writing);
    assert ClaimsSide(s.polls, f, Writing) && ClaimsSide(s.polls, s.calls[t].poll, Writing);
  }

  lemma OneReads(decoder: Decoder, polls: map<Id, Poll>, calls: map<Id, Call>, t: Id, calls': map<Id, Call>)
    requires Reader(decoder, polls, calls) && Reads(calls, t) && t in calls' && calls' == calls[t := calls'[t]]
    ensures forall u :: Reads(calls', u) ==> u == t
  {
    forall u | Reads(calls', u) ensures u == t {
      if u != t { assert Reads(calls, u); }
    }
  }

  /** The one call that reads goes on. */
  lemma ReadMoveKeepsReader(decoder: Decoder, decoder': Decoder, polls: map<Id, Poll>, calls: map<Id, Call>,
          t: Id, calls': map<Id, Call>)
    requires Reader(decoder, polls, calls) && Reads(calls, t) && t in calls' && calls' == calls[t := calls'[t]]
    requires calls'[t].side.Reading? && ReadMove(decoder, decoder', calls[t], calls'[t])
    requires calls'[t].Out? ==> Holds(calls, t, calls'[t].poll, Reading) || decoder == Open(calls'[t].poll)
    ensures Reader(decoder', polls, calls')
  {
    OneReads(decoder, polls, calls, t, calls');
    assert DecoderFits(decoder, calls[t]);
  }

  lemma OtherKeepsReader(decoder: Decoder, polls: map<Id, Poll>, calls: map<Id, Call>, t: Id, calls': map<Id, Call>)
    requires Reader(decoder, polls, calls) && t in calls' && calls' == calls[t := calls'[t]]
    requires calls'[t].side.Writing? || (calls'[t].Fresh? && NobodyReads(calls))
    ensures Reader(decoder, polls, calls')
  {
    forall u | Reads(calls', u) && u != t ensures Reads(calls, u) && calls'[u] == calls[u] {}
  }

  /** A call that leaves the polls alone keeps the reader where it belongs. */
  lemma ApartKeepsReader(s: State, s': State, t: Id)
    requires Reader(s.decoder, s.polls, s.calls) && CallMove(s, s', t)
    ensures Reader(s'.decoder, s'.polls, s'.calls)
  {
    var ph := s'.calls[t];
    if ph.side.Reading? && t in s.calls {
      assert ph.Out? ==> HoldsAny(s'.calls, t, Reading);
      ReadMoveKeepsReader(s.decoder, s'.decoder, s.polls, s.calls, t, s'.calls);
    } else {
      OtherKeepsReader(s.decoder, s.polls, s.calls, t, s'.calls);
    }
  }

  lemma MeetKeepsReader(s: State, s': State, t: Id, f: Id)
    requires Core(s) && DoMeet(s, s', t, f)
    ensures Reader(s'.decoder, s'.polls, s'.calls)
  {
    if s.calls[t].side.Writing? {
      OtherKeepsReader(s.decoder, s.polls, s.calls, t, s'.calls);
      forall g | AwaitsRead(s'.polls, g) ensures AwaitsRead(s.polls, g) {}
    } else {
      assert Reads(s.calls, t) && DecoderFits(s.decoder, s.calls[t]);
      OneReads(s.decoder, s.polls, s.calls, t, s'.calls);
      forall g | AwaitsRead(s'.polls, g) ensures g == f {
        if g != f {
          assert ClaimsSide(s.polls, g, Reading) && ClaimsSide(s.polls, f, Reading);
        }
      }
    }
  }

  lemma AnswerKeepsReader(s: State, s': State, t: Id, f: Id, ok: bool)
    requires Reader(s.decoder, s.polls, s.calls) && DoAnswer(s, s', t, f, ok)
    ensures Reader(s'.decoder, s'.polls, s'.calls)
  {
    forall u | Reads(s'.calls, u) ensures Reads(s.calls, u) && s'.calls[u] == s.calls[u] {}
    forall g | AwaitsRead(s'.polls, g) ensures AwaitsRead(s.polls, g) {}
  }

  lemma MeetKeepsCore(s: State, s': State, t: Id, f: Id)
    requires Core(s) && DoMeet(s, s', t, f)
    ensures Core(s')
  {
    MeetMoves(s, s', t, f);
    SwapPhase(s, s'.polls, f, Awaiting(s.calls[t].side, t, false));
    MeetKeepsReader(s, s', t, f);
    CallKeepsRest(s, s', t);
  }

  lemma MeetKeepsInv(s: State, s': State, t: Id, f: Id)
    requires Inv(s) && DoMeet(s, s', t, f)
    ensures Inv(s')
  {
    MeetKeepsCore(s, s', t, f);
    MeetKeepsMatch(s.polls, s.calls, Broken(s), t, f, s.calls[t].side);
  }

  lemma MeetKeepsMatch(polls: map<Id, Poll>, calls: map<Id, Call>, broken: bool, t: Id, f: Id, side: Side)
    requires Matched(polls, calls, broken)
    requires t in calls && !calls[t].Out? && f in polls && !polls[f].Awaiting?
    ensures Matched(polls[f := Awaiting(side, t, false)], calls[t := Out(side, f, Got)], broken)
  {
    var (polls', calls') := (polls[f := Awaiting(side, t, false)], calls[t := Out(side, f, Got)]);
    forall u, g | Holds(calls', u, g, Writing)
      ensures WaitsFor(polls', g, Writing, u)
    {
      if u != t { assert Holds(calls, u, g, Writing); }
    }
    forall g | g in polls' && polls'[g].Awaiting? && polls'[g].side.Writing?
      ensures broken || Holds(calls', polls'[g].partner, g, Writing)
    {
      if g != f && !broken { assert Holds(calls, polls[g].partner, g, Writing); }
    }
  }

  lemma AnswerKeepsCore(s: State, s': State, t: Id, f: Id, ok: bool)
    requires Core(s) && DoAnswer(s, s', t, f, ok)
    ensures Core(s')
  {
    AnswerMoves(s, s', t, f, ok);
    SwapPhase(s, s'.polls, f, Received(s.calls[t].side, ok));
    AnswerKeepsReader(s, s', t, f, ok);
    CallKeepsRest(s, s', t);
  }

  lemma AnswerKeepsInv(s: State, s': State, t: Id, f: Id, ok: bool)
    requires Inv(s) && DoAnswer(s, s', t, f, ok)
    ensures Inv(s')
  {
    AnswerKeepsCore(s, s', t, f, ok);
    if s.calls[t].side.Writing? {
      AnswerIsPartners(s, t, f);
      AnswerKeepsMatch(s.polls, s.calls, Broken(s), t, f, s'.polls[f], s'.calls[t]);
    } else {
      ReadKeepsMatch(s.polls, s.calls, Broken(s), t, f, s'.polls[f], s'.calls[t]);
    }
  }

  lemma AnswerKeepsMatch(polls: map<Id, Poll>, calls: map<Id, Call>, broken: bool, t: Id, f: Id, ph: Poll, ph': Call)
    requires Matched(polls, calls, broken)
    requires HoldsAny(calls, t, Writing) && calls[t].poll == f && f in polls && !ph.Awaiting? && !ph'.Out?
    ensures Matched(polls[f := ph], calls[t := ph'], broken)
  {
    assert Holds(calls, t, f, Writing);
    var (polls', calls') := (polls[f := ph], calls[t := ph']);
    forall u, g | Holds(calls', u, g, Writing)
      ensures WaitsFor(polls', g, Writing, u)
    {
      assert Holds(calls, u, g, Writing);
    }
    forall g | g in polls' && polls'[g].Awaiting? && polls'[g].side.Writing?
      ensures broken || Holds(calls', polls'[g].partner, g, Writing)
    {
      if !broken { assert Holds(calls, polls[g].partner, g, Writing); }
    }
  }

  lemma ReadKeepsMatch(polls: map<Id, Poll>, calls: map<Id, Call>, broken: bool, t: Id, f: Id, ph: Poll, ph': Call)
    requires Matched(polls, calls, broken)
    requires HoldsAny(calls, t, Reading) && f in polls && polls[f].side.Reading? && !ph.Awaiting? && !ph'.Out?
    ensures Matched(polls[f := ph], calls[t := ph'], broken)
  {
    var (polls', calls') := (polls[f := ph], calls[t := ph']);
    forall u, g | Holds(calls', u, g, Writing)
      ensures WaitsFor(polls', g, Writing, u)
    {
      assert Holds(calls, u, g, Writing);
    }
    forall g | g in polls' && polls'[g].Awaiting? && polls'[g].side.Writing?
      ensures broken || Holds(calls', polls'[g].partner, g, Writing)
    {
      if !broken { assert Holds(calls, polls[g].partner, g, Writing); }
    }
  }

  lemma ApartKeepsMatch(s: State, s': State, t: Id)
    requires Matched(s.polls, s.calls, Broken(s)) && CallMove(s, s', t)
    ensures Matched(s'.polls, s'.calls, Broken(s'))
  {
    forall u, g | Holds(s'.calls, u, g, Writing)
      ensures WaitsFor(s'.polls, g, Writing, u)
    {
      assert u == t ==> HoldsAny(s'.calls, t, Writing);
      assert Holds(s.calls, u, g, Writing);
    }
    forall g | g in s'.polls && s'.polls[g].Awaiting? && s'.polls[g].side.Writing?
      ensures Broken(s') || Holds(s'.calls, s'.polls[g].partner, g, Writing)
    {
      if !Broken(s') {
        var u := s.polls[g].partner;
        assert Holds(s.calls, u, g, Writing);
        if u == t {
          assert HoldsAny(s.calls, t, Writing) && Holds(s.calls, t, s'.calls[t].poll, Writing);
        }
      }
    }
  }

  /** Everything but the matching of polls and calls. */
  lemma CallKeepsRest(s: State, s': State, t: Id)
    requires Core(s) && CallEffect(s, s', t)
    requires |PollTokens(s'.polls)| == |PollTokens(s.polls)|
    requires forall g, side :: ClaimsSide(s'.polls, g, side) <==> ClaimsSide(s.polls, g, side)
    requires Reader(s'.decoder, s'.polls, s'.calls) && s'.polls.Keys == s.polls.Keys
    ensures Core(s')
  {
    WorkerMoveKeepsBarrier(s.p, s'.p, Tok(s'.calls[t].Token?) - CallTok(s.calls, t), s.upgrader, s.conn);
    CallKeepsCount(s, s', t);
    assert Snapshots(map[t := s'.calls[t]], s.conn);
    assert t in map[t := s'.calls[t]];
  }

  lemma CallKeepsCore(s: State, s': State, step: CallStep)
    requires Core(s) && CallNext(s, s', step)
    ensures Core(s')
  {
    if step.Meet? {
      MeetKeepsCore(s, s', step.t, step.f);
    } else if step.Answer? {
      AnswerKeepsCore(s, s', step.t, step.f, step.ok);
    } else {
      CallMoves(s, s', step);
      ApartKeepsReader(s, s', step.t);
      CallKeepsRest(s, s', step.t);
    }
  }

  // ---------- upgrade steps ----------

  /** The upgrader touches neither polls nor calls nor what is written. */
  ghost predicate UpgradeEffect(s: State, s': State) {
    && s'.polls == s.polls && s'.calls == s.calls && s'.busy == s.busy && s'.resp == s.resp && s'.wire == s.wire
    && s'.rawWriter == s.rawWriter && s'.frameOwner == s.frameOwner && s'.decoder == s.decoder && s'.late == s.late
    && s'.p.worker == s.p.worker && (s.closed ==> s'.closed) && s'.stored == s.stored
    && (s'.conn == s.conn || (s.conn.Old? && s'.conn.New?))
    && (BarrierPhase(s.p, s.upgrader, s.conn) ==> BarrierPhase(s'.p, s'.upgrader, s'.conn))
  }

  /** A lock section of `Pause` either goes to sleep or leaves the barrier paused. */
  lemma PauseWaitPhases(p: P.State, attempt: nat)
    requires P.Inv(p) && p.status != P.Paused && p.sleeping + p.woken == {}
    ensures var (p', r) := P.PauseWait(p, UPGRADER);
            BarrierPhase(p', if r.Waiting? then Pausing(attempt) else Frozen(attempt), Old) && p'.worker == p.worker
  {
  }

  lemma PauseMoves(s: State, s': State)
    requires BarrierPhase(s.p, s.upgrader, s.conn) && DoPause(s, s')
    ensures UpgradeEffect(s, s')
  {
    assert s.p.status == P.Normal;
    PauseWaitPhases(P.Close(s.p, s.p.pausing).(status := P.Pausing), s.upgrader.attempt);
  }

  lemma WakeMoves(s: State, s': State)
    requires BarrierPhase(s.p, s.upgrader, s.conn) && DoWake(s, s')
    ensures UpgradeEffect(s, s')
  {
    PauseWaitPhases(s.p.(woken := s.p.woken - {UPGRADER}), s.upgrader.attempt);
  }

  lemma FailMoves(s: State, s': State)
    requires P.Inv(s.p) && DoFail(s, s')
    ensures UpgradeEffect(s, s')
  {
  }

  lemma SwapMoves(s: State, s': State)
    requires DoSwap(s, s') && BarrierPhase(s.p, s.upgrader, s.conn)
    ensures UpgradeEffect(s, s')
  {
  }

  lemma UpgradeMoves(s: State, s': State, step: UpgradeStep)
    requires BarrierPhase(s.p, s.upgrader, s.conn) && UpgradeNext(s, s', step)
    ensures UpgradeEffect(s, s')
  {
    match step
    case Start =>
    case Abort =>
    case Pause => PauseMoves(s, s');
    case Wake => WakeMoves(s, s');
    case Fail => FailMoves(s, s');
    case Swap => SwapMoves(s, s');
    case CloseOld =>
    case CloseSession =>
  }

  lemma UpgradeKeepsCore(s: State, s': State, step: UpgradeStep)
    requires Core(s) && UpgradeNext(s, s', step)
    ensures Core(s')
  {
    UpgradeMoves(s, s', step);
    forall f, side ensures ClaimsSide(s'.polls, f, side) == ClaimsSide(s.polls, f, side) {}
  }

  // ---------- all steps ----------

  lemma ClockKeepsCore(s: State, s': State, step: ClockStep)
    requires Core(s) && ClockNext(s, s', step)
    ensures Core(s')
  {
    forall f, side ensures ClaimsSide(s'.polls, f, side) == ClaimsSide(s.polls, f, side) {}
  }

  lemma NextKeepsCore(s: State, s': State, step: Step)
    requires Core(s) && Next(s, s', step)
    ensures Core(s')
  {
    match step
    case OfPoll(x) => PollKeepsCore(s, s', x);
    case OfCall(x) => CallKeepsCore(s, s', x);
    case OfUpgrade(x) => UpgradeKeepsCore(s, s', x);
    case OfClock(x) => ClockKeepsCore(s, s', x);
  }

  lemma CallKeepsMatched(s: State, s': State, step: CallStep)
    requires Inv(s) && CallNext(s, s', step)
    ensures Matched(s'.polls, s'.calls, Broken(s'))
  {
    if step.Meet? {
      MeetKeepsInv(s, s', step.t, step.f);
    } else if step.Answer? {
      AnswerKeepsInv(s, s', step.t, step.f, step.ok);
    } else {
      CallMoves(s, s', step);
      ApartKeepsMatch(s, s', step.t);
    }
  }

  lemma PollKeepsMatched(s: State, s': State, step: PollStep)
    requires Matched(s.polls, s.calls, Broken(s)) && PollNext(s, s', step) && !Abandons(s, OfPoll(step))
    ensures Matched(s'.polls, s'.calls, Broken(s'))
  {
    PollMoves(s, s', step);
    PollStaysHeld(s, s', step);
    PollKeepsMatch(s, s', step.f);
  }

  lemma UpgradeKeepsMatched(s: State, s': State, step: UpgradeStep)
    requires Inv(s) && UpgradeNext(s, s', step)
    ensures Matched(s'.polls, s'.calls, Broken(s'))
  {
    UpgradeMoves(s, s', step);
  }

  lemma ClockKeepsMatched(s: State, s': State, step: ClockStep)
    requires Matched(s.polls, s.calls, Broken(s)) && ClockNext(s, s', step)
    ensures Matched(s'.polls, s'.calls, Broken(s'))
  {
  }

  lemma NextKeepsInv(s: State, s': State, step: Step)
    requires Inv(s) && Next(s, s', step) && !Abandons(s, step)
    ensures Inv(s')
  {
    NextKeepsCore(s, s', step);
    match step
    case OfPoll(x) => PollKeepsMatched(s, s', x);
    case OfCall(x) => CallKeepsMatched(s, s', x);
    case OfUpgrade(x) => UpgradeKeepsMatched(s, s', x);
    case OfClock(x) => ClockKeepsMatched(s, s', x);
  }

  // ---------- readers with a feed that waits ----------

  lemma PollKeepsAttended(s: State, s': State, step: PollStep)
    requires Attended(s.decoder, s.polls, s.calls) && PollNext(s, s', step) && !Strands(s, OfPoll(step))
    ensures Attended(s'.decoder, s'.polls, s'.calls)
  {
    PollMoves(s, s', step);
    var f := step.f;
    if AwaitsRead(s.polls, f) && !AwaitsRead(s'.polls, f) {
      assert step.PollGiveUp?;
      forall t | HoldsAny(s.calls, t, Reading) ensures s.calls[t].poll != f {
        assert s.calls[t].poll == f ==> Holds(s.calls, t, f, Reading);
      }
    }
  }

  lemma ApartKeepsAttended(s: State, s': State, t: Id)
    requires Attended(s.decoder, s.polls, s.calls) && CallMove(s, s', t)
    ensures Attended(s'.decoder, s'.polls, s'.calls)
  {
    var ph := s'.calls[t];
    forall u | HoldsAny(s'.calls, u, Reading) ensures AwaitsRead(s'.polls, s'.calls[u].poll) {
      if u != t {
        assert HoldsAny(s.calls, u, Reading);
      } else if Holds(s.calls, t, ph.poll, Reading) {
        assert HoldsAny(s.calls, t, Reading);
      }
    }
    if s'.decoder.Open? && s'.decoder != s.decoder {
      assert ReadMove(s.decoder, s'.decoder, s.calls[t], ph);
      assert HoldsAny(s.calls, t, Reading);
    }
  }

  lemma AnswerKeepsAttended(s: State, s': State, t: Id, f: Id, ok: bool)
    requires Core(s) && Attended(s.decoder, s.polls, s.calls) && DoAnswer(s, s', t, f, ok)
    requires !Strands(s, OfCall(Answer(t, f, ok)))
    ensures Attended(s'.decoder, s'.polls, s'.calls)
  {
    assert HoldsAny(s.calls, t, s.calls[t].side);
    forall u | HoldsAny(s'.calls, u, Reading) ensures AwaitsRead(s'.polls, s'.calls[u].poll) {
      assert HoldsAny(s.calls, u, Reading) && u != t;
      if s.calls[t].side.Reading? {
        assert Reads(s.calls, t) && Reads(s.calls, u);
      }
    }
  }

  lemma MeetKeepsAttended(s: State, s': State, t: Id, f: Id)
    requires Core(s) && Attended(s.decoder, s.polls, s.calls) && DoMeet(s, s', t, f)
    ensures Attended(s'.decoder, s'.polls, s'.calls)
  {
    forall u | HoldsAny(s'.calls, u, Reading) ensures AwaitsRead(s'.polls, s'.calls[u].poll) {
      assert u != t ==> HoldsAny(s.calls, u, Reading);
    }
  }

  lemma CallKeepsAttended(s: State, s': State, step: CallStep)
    requires Core(s) && Attended(s.decoder, s.polls, s.calls) && CallNext(s, s', step) && !Strands(s, OfCall(step))
    ensures Attended(s'.decoder, s'.polls, s'.calls)
  {
    if step.Meet? {
      MeetKeepsAttended(s, s', step.t, step.f);
    } else if step.Answer? {
      AnswerKeepsAttended(s, s', step.t, step.f, step.ok);
    } else {
      CallMoves(s, s', step);
      ApartKeepsAttended(s, s', step.t);
    }
  }

  lemma UpgradeKeepsAttended(s: State, s': State, step: UpgradeStep)
    requires Core(s) && Attended(s.decoder, s.polls, s.calls) && UpgradeNext(s, s', step)
    ensures Attended(s'.decoder, s'.polls, s'.calls)
  {
    UpgradeMoves(s, s', step);
  }

  lemma ClockKeepsAttended(s: State, s': State, step: ClockStep)
    requires Attended(s.decoder, s.polls, s.calls) && ClockNext(s, s', step)
    ensures Attended(s'.decoder, s'.polls, s'.calls)
  {
  }

  /** As long as no feed gives up on a reader in use, and no reply leaves the decoder its reader, a feed waits for
      every reader. */
  lemma NextKeepsAttended(s: State, s': State, step: Step)
    requires Core(s) && Attended(s.decoder, s.polls, s.calls) && Next(s, s', step) && !Strands(s, step)
    ensures Attended(s'.decoder, s'.polls, s'.calls)
  {
    match step
    case OfPoll(x) => PollKeepsAttended(s, s', x);
    case OfCall(x) => CallKeepsAttended(s, s', x);
    case OfUpgrade(x) => UpgradeKeepsAttended(s, s', x);
    case OfClock(x) => ClockKeepsAttended(s, s', x);
  }
}
