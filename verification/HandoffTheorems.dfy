/** What holds in every run of `Handoff`, however polls, calls, timers and the upgrader interleave, and what holds as
    long as no poll lets go of what it handed over while that is still out. */
module HandoffTheorems {
  import P = Pauser
  import opened Handoff
  import opened HandoffProof
  import opened HandoffLedger

  /** What holds in a run in which no flush gives up while its writer is out. */
  ghost predicate AllKept(s: State) {
    Inv(s) && Ledger(s) && InOrder(s.log, s.wire, s.calls)
  }

  /** What holds in a run in which no poll of this side lets go of what is still out. */
  ghost predicate Kept(s: State, side: Side) {
    LogKept(s) && if side.Writing? then AllKept(s) else Attended(s.decoder, s.polls, s.calls)
  }

  /** Until the state `n` no poll of this side has let go of what was still out. Other deadlines may have passed. */
  ghost predicate Patient(states: seq<State>, steps: seq<Step>, n: nat, side: Side) {
    forall k :: 0 <= k < n && k < |steps| && k < |states| ==> !Loses(states[k], steps[k], side)
  }

  lemma InitialKept()
    ensures AllKept(INITIAL)
  {
    assert PollTokens(INITIAL.polls) == {} && CallTokens(INITIAL.calls) == {};
  }

  /** Whatever deadlines pass, every state keeps the log in order. */
  lemma {:induction false} LogIsKept(states: seq<State>, steps: seq<Step>, i: nat)
    requires |states| == |steps| + 1 && states[0] == INITIAL && i < |states|
    requires forall k :: 0 <= k < |steps| ==> P.Inv(states[k].p) ==> Next(states[k], states[k + 1], steps[k])
    ensures LogKept(states[i])
  {
    if i == 0 {
      InitialKept();
    } else {
      LogIsKept(states, steps, i - 1);
      NextKeepsLog(states[i - 1], states[i], steps[i - 1]);
    }
  }

  /** So the barrier's lock sections are defined wherever a step needs them: no channel is closed twice. */
  lemma StepsMakeARun(states: seq<State>, steps: seq<Step>)
    requires |states| == |steps| + 1 && states[0] == INITIAL
    requires forall k :: 0 <= k < |steps| ==> P.Inv(states[k].p) ==> Next(states[k], states[k + 1], steps[k])
    ensures Run(states, steps)
  {
    forall i | 0 <= i < |steps| ensures P.Inv(states[i].p) {
      LogIsKept(states, steps, i);
    }
  }

  lemma NextKept(s: State, s': State, step: Step)
    requires AllKept(s) && Next(s, s', step) && !Abandons(s, step)
    ensures AllKept(s')
  {
    NextKeepsLedger(s, s', step);
    NextKeepsOrder(s, s', step);
  }

  lemma NextKeepsSide(s: State, s': State, step: Step, side: Side)
    requires Kept(s, side) && Next(s, s', step) && !Loses(s, step, side)
    ensures Kept(s', side)
  {
    NextKeepsLog(s, s', step);
    if side.Writing? {
      NextKept(s, s', step);
    } else {
      NextKeepsAttended(s, s', step);
    }
  }

  lemma {:induction false} ReachedBy(states: seq<State>, steps: seq<Step>, i: nat, side: Side)
    requires Run(states, steps) && i < |states| && Patient(states, steps, i, side)
    ensures Kept(states[i], side)
  {
    if i == 0 {
      InitialKept();
    } else {
      ReachedBy(states, steps, i - 1, side);
      NextKeepsSide(states[i - 1], states[i], steps[i - 1], side);
    }
  }

  lemma Reached(states: seq<State>, steps: seq<Step>, i: nat)
    requires Run(states, steps) && i < |states| && Patient(states, steps, i, Writing)
    ensures AllKept(states[i])
  {
    ReachedBy(states, steps, i, Writing);
  }

  // ---------- Pause is a barrier ----------

  /** From the return of `Pause` until `Resume`, and for good once the payload is replaced, no poll and no call
      has a token, and no rendezvous happens: in every run, whatever deadlines pass. */
  lemma PauseStopsHandOvers(states: seq<State>, steps: seq<Step>, i: nat)
    requires Run(states, steps) && i < |states|
    requires states[i].upgrader.Frozen? || states[i].conn.New?
    ensures states[i].p.status == P.Paused && states[i].p.worker == 0
    ensures forall f :: f in states[i].polls ==> !HoldsToken(states[i].polls[f])
    ensures i < |steps| && steps[i].OfCall? ==> !steps[i].call.Meet? && !steps[i].call.Answer?
  {
    LogIsKept(states, steps, i);
    PausedHasNoTokens(states[i]);
    assert i < |steps| ==> Next(states[i], states[i + 1], steps[i]);
  }

  /** A call holds a writer, or reads, or the decoder has kept a reader. */
  ghost predicate StillOut(s: State, side: Side) {
    (exists t :: HoldsAny(s.calls, t, side)) || (side.Reading? && s.decoder.Open?)
  }

  lemma PausedIsIn(s: State, side: Side)
    requires Kept(s, side) && s.p.status == P.Paused
    ensures !StillOut(s, side)
  {
    PausedHasNoTokens(s);
    if side.Writing? {
      PausedIsEmpty(s);
    }
  }

  /** And all that was handed out before has been given back, unless a poll of that side has let go of it. */
  lemma PauseIsABarrier(states: seq<State>, steps: seq<Step>, i: nat, side: Side)
    requires Run(states, steps) && i < |states| && Patient(states, steps, i, side)
    requires states[i].upgrader.Frozen? || states[i].conn.New?
    ensures !StillOut(states[i], side)
    ensures forall e :: e in states[i].log && e.HandOver? && e.conn.Old? && e.side == side ==>
                          e.call in states[i].calls && states[i].calls[e.call].Ended?
  {
    var s := states[i];
    ReachedBy(states, steps, i, side);
    PausedIsIn(s, side);
    forall e | e in s.log && e.HandOver? && e.conn.Old? && e.side == side
      ensures e.call in s.calls && s.calls[e.call].Ended?
    {
      assert Served(s.calls, e.call, side, Old);
      assert !HoldsAny(s.calls, e.call, side);
    }
  }

  /** The worker count of the barrier is the number of threads inside the payload. */
  lemma WorkersAreTokens(states: seq<State>, steps: seq<Step>, i: nat)
    requires Run(states, steps) && i < |states|
    ensures states[i].p.worker == |PollTokens(states[i].polls)| + |CallTokens(states[i].calls)|
  {
    LogIsKept(states, steps, i);
  }

  // ---------- the upgrade keeps order ----------

  /** In the log of any run, whatever deadlines pass: no hand-over on the old connection between a return of `Pause`
      and the next `Resume`, nothing but hand-overs on the new connection after the swap, none of those before it, and
      none twice to the same call. */
  lemma UpgradeKeepsOrder(states: seq<State>, steps: seq<Step>, n: nat, i: nat, j: nat)
    requires Run(states, steps) && n < |states| && i < j < |states[n].log|
    ensures var log := states[n].log;
            && (log[i].PauseReturned? && log[j].HandOver? && log[j].conn.Old? ==>
                  exists k :: i < k < j && log[k].Resumed?)
            && (log[i].SwappedTo? ==> log[j].HandOver? && log[j].conn == New(log[i].attempt))
            && (log[i].HandOver? && log[i].conn.New? ==>
                  exists k :: 0 <= k < i && log[k] == SwappedTo(log[i].conn.attempt))
            && (log[i].HandOver? && log[j].HandOver? ==> log[i].call != log[j].call)
  {
    LogIsKept(states, steps, n);
    var log := states[n].log;
    assert WellPlaced(log, i) && WellPlaced(log, j);
    if log[i].PauseReturned? && log[j].HandOver? && log[j].conn.Old? {
      assert log[..j][i] == log[i];
      ResumedSince(log[..j], i);
      var k :| i < k < j && log[..j][k].Resumed?;
      assert log[k].Resumed?;
    }
    if log[i].HandOver? && log[i].conn.New? {
      var k :| 0 <= k < i && log[..i][k] == SwappedTo(log[i].conn.attempt);
      assert log[k] == SwappedTo(log[i].conn.attempt);
    }
  }

  /** Every write that reports success is on the wire once, on the connection that handed the writer out. The
      old connection's packets come first, in the order of their hand-overs, then those of the installed one. */
  lemma WireIsSuccessOrder(states: seq<State>, steps: seq<Step>, n: nat)
    requires Run(states, steps) && n < |states| && Patient(states, steps, n, Writing)
    ensures var s := states[n];
            && (forall t :: t in s.calls && s.calls[t] == Ended(Writing, true) ==> OnWire(s.wire, t))
            && (forall i, j :: 0 <= i < j < |s.wire| ==> s.wire[i].1 != s.wire[j].1)
            && (forall i :: 0 <= i < |s.wire| ==> HandOver(s.wire[i].0, Writing, s.wire[i].1) in s.log)
            && (forall i, j :: 0 <= i < j < |s.wire| && s.wire[j].0.Old? ==>
                                 s.wire[i].0.Old? && Earlier(s.log, s.wire[i], s.wire[j]))
            && (forall i :: 0 <= i < |s.wire| && s.wire[i].0.New? ==> s.wire[i].0 == s.conn)
  {
    Reached(states, steps, n);
  }

  // ---------- the flush handshake ----------

  /** At most one call is between taking a poll's writer and giving it back, and the shared encoder is its own. */
  lemma OneWriterAtATime(states: seq<State>, steps: seq<Step>, n: nat, t: Id, u: Id)
    requires Run(states, steps) && n < |states| && Patient(states, steps, n, Writing)
    requires HoldsAny(states[n].calls, t, Writing) && HoldsAny(states[n].calls, u, Writing)
    ensures t == u
    ensures states[n].calls[t].stage != Got ==>
              states[n].frameOwner == t && states[n].rawWriter == states[n].calls[t].poll
  {
    Reached(states, steps, n);
    OneOut(states[n], t, u);
  }

  /** A feed and a reading call meet. */
  ghost predicate HandsReader(s: State, step: Step) {
    && step.OfCall? && step.call.Meet?
    && step.call.t in s.calls && s.calls[step.call.t].side.Reading?
  }

  /** In every run, whatever gives up: a reader is handed over only while no call reads and the decoder has none. So
      no second one is out, and a call that reads frames reads them from the decoder's own reader. */
  lemma OneReaderAtATime(states: seq<State>, steps: seq<Step>, n: nat)
    requires Run(states, steps) && n < |states|
    ensures forall t, u :: HoldsAny(states[n].calls, t, Reading) && HoldsAny(states[n].calls, u, Reading) ==> t == u
    ensures forall t :: HoldsAny(states[n].calls, t, Reading) && states[n].decoder.Open? ==>
                          states[n].decoder.poll == states[n].calls[t].poll
    ensures n < |steps| && HandsReader(states[n], steps[n]) ==> !StillOut(states[n], Reading)
  {
    LogIsKept(states, steps, n);
    var s := states[n];
    forall t | HoldsAny(s.calls, t, Reading) ensures Reads(s.calls, t) && DecoderFits(s.decoder, s.calls[t]) {}
    if n < |steps| && HandsReader(s, steps[n]) {
      assert Next(s, states[n + 1], steps[n]);
      MeetsAlone(s, states[n + 1], steps[n].call.t, steps[n].call.f);
    }
  }

  lemma MeetsAlone(s: State, s': State, t: Id, f: Id)
    requires Core(s) && DoMeet(s, s', t, f)
    ensures s.calls[t].side.Reading? ==> !StillOut(s, Reading)
  {
    if s.calls[t].side.Reading? {
      assert Reads(s.calls, t) && DecoderFits(s.decoder, s.calls[t]);
      forall u ensures !HoldsAny(s.calls, u, Reading) {
        if HoldsAny(s.calls, u, Reading) {
          assert Reads(s.calls, u);
        }
      }
    }
  }

  /** The reply a poll receives comes from the call that has its own reader or writer: for a feed in every run, for a
      flush unless one has let go of its writer. */
  lemma ReplyIsForItsOwnPoll(states: seq<State>, steps: seq<Step>, n: nat)
    requires Run(states, steps) && n < |steps| && steps[n].OfCall? && steps[n].call.Answer?
    ensures var (s, t, f) := (states[n], steps[n].call.t, steps[n].call.f);
            && t in s.calls && s.calls[t].Out? && f in s.polls && s.polls[f].Awaiting?
            && s.polls[f].side == s.calls[t].side
            && (s.calls[t].side.Reading? || Patient(states, steps, n, Writing) ==> s.calls[t].poll == f)
            && (s.calls[t].side.Writing? && Patient(states, steps, n, Writing) ==> s.polls[f].partner == t)
  {
    var (s, t, f) := (states[n], steps[n].call.t, steps[n].call.f);
    LogIsKept(states, steps, n);
    assert Next(s, states[n + 1], steps[n]);
    if s.calls[t].side.Reading? {
      assert Reads(s.calls, t) && AwaitsRead(s.polls, f);
    } else if Patient(states, steps, n, Writing) {
      Reached(states, steps, n);
      AnswerIsPartners(s, t, f);
    }
  }

  /** A flush that returns nil wrote one whole packet or one NOOP and nothing else; the packet is of a call the
      old connection handed a writer to, and is in no other response. */
  lemma FlushWroteOneThing(states: seq<State>, steps: seq<Step>, n: nat, f: Id)
    requires Run(states, steps) && n < |states| && Patient(states, steps, n, Writing) && f in states[n].polls
    ensures f in states[n].resp
    ensures states[n].polls[f] == Finished(Writing, NoopSent(true)) ==> states[n].resp[f] == [Noop]
    ensures states[n].polls[f] == Finished(Writing, Answered(true)) ==>
              exists t: Id :: states[n].resp[f] == [PacketOf(t)] && (Old, t) in states[n].wire
                              && HandOver(Old, Writing, t) in states[n].log
                              && forall g :: Carries(states[n].resp, g, t) ==> g == f
  {
    Reached(states, steps, n);
    var s := states[n];
    assert RespFits(f, s.polls[f], s.resp[f], s.calls);
    if s.polls[f] == Finished(Writing, Answered(true)) {
      var t := s.resp[f][0].call;
      assert s.resp[f] == [PacketOf(t)] && Carries(s.resp, f, t);
      assert HandOver(Old, Writing, t) in s.log;
    }
  }

  /** The packets on the old wire are exactly those in the responses, each in one response. */
  lemma OldWireIsResponses(states: seq<State>, steps: seq<Step>, n: nat, t: Id)
    requires Run(states, steps) && n < |states| && Patient(states, steps, n, Writing)
    ensures (Old, t) in states[n].wire <==> exists f :: Carries(states[n].resp, f, t)
    ensures forall f, g :: Carries(states[n].resp, f, t) && Carries(states[n].resp, g, t) ==> f == g
  {
    Reached(states, steps, n);
  }
}
