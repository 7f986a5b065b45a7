/** Where the promise of `Pause` ends: once a poll has let go of a reader or writer that is still out, `Pause` can
    return with it out. */
module PauseLimits {
  import P = Pauser
  import opened Handoff
  import opened HandoffProof
  import opened HandoffLedger
  import opened HandoffTheorems
  import opened HandoffLimits

  // ---------- a poll leaves the payload ----------

  /** No poll of this side waits for a reply. */
  ghost predicate NoneAwaits(s: State, side: Side) {
    forall f :: f in s.polls && s.polls[f].Awaiting? ==> s.polls[f].side != side
  }

  /** What draining the barrier leaves as it was. */
  ghost predicate Drained(s: State, s': State) {
    && s' == s.(p := s'.p, polls := s'.polls, calls := s'.calls, late := s'.late, stored := s'.stored)
    && s'.p.status == s.p.status
    && (forall t :: t in s.calls && s.calls[t].Out? ==> t in s'.calls && s'.calls[t] == s.calls[t])
  }

  /** The deadline passes, and a poll at the top of a loop times out. */
  lemma TimeOut(from: State, s: State, side: Side, f: Id) returns (to: State)
    requires Reaches(from, s, side) && f in s.polls && f in s.resp && NoneAwaits(s, side)
    requires s.polls[f].Holding? || (s.polls[f].Awaiting? && !s.polls[f].armed)
    ensures Reaches(from, to, side)
    ensures to == SetPoll(s, f, Returning(s.polls[f].side, TimedOut)).(late := to.late, stored := true)
  {
    var x := s.polls[f].side;
    var s1 := s.(late := s.late + {x});
    Extend(from, s, side, OfClock(Pass(x)), s1);
    to := SetPoll(s1, f, Returning(x, TimedOut)).(stored := true);
    Extend(from, s1, side, OfPoll(if s.polls[f].Holding? then PollTimeout(f) else PollGiveUp(f)), to);
  }

  /** Its timer fires, and a poll goes back to the top of its loop. */
  lemma GoRound(from: State, s: State, side: Side, f: Id) returns (to: State)
    requires Reaches(from, s, side) && f in s.polls && f in s.resp
    requires s.polls[f].Offering? || (s.polls[f].Awaiting? && s.polls[f].armed)
    ensures Reaches(from, to, side)
    ensures to == SetPoll(s, f, if s.polls[f].Offering? then Holding(s.polls[f].side) else s.polls[f].(armed := false))
  {
    if s.polls[f].Offering? {
      to := SetPoll(s, f, Holding(s.polls[f].side));
      Extend(from, s, side, OfPoll(PollRearm(f)), to);
    } else {
      to := SetPoll(s, f, s.polls[f].(armed := false));
      Extend(from, s, side, OfPoll(PollRelook(f)), to);
    }
  }

  lemma StoreReply(from: State, s: State, side: Side, f: Id) returns (to: State)
    requires Reaches(from, s, side) && f in s.polls && f in s.resp && s.polls[f].Received?
    ensures Reaches(from, to, side)
    ensures to == SetPoll(s, f, Returning(s.polls[f].side, Answered(s.polls[f].ok && !s.stored))).(stored := to.stored)
  {
    var ph := s.polls[f];
    to := SetPoll(s, f, Returning(ph.side, Answered(ph.ok && !s.stored))).(stored := s.stored || !ph.ok);
    Extend(from, s, side, OfPoll(PollStore(f, false)), to);
  }

  /** What bringing the poll `f` back changes. */
  ghost predicate CameBack(s: State, to: State, f: Id) {
    && f in to.polls && to.polls[f].Returning?
    && to == s.(polls := s.polls[f := to.polls[f]], late := to.late, stored := to.stored)
  }

  lemma RoundOut(from: State, s: State, side: Side, f: Id) returns (to: State)
    requires Reaches(from, s, side) && f in s.polls && f in s.resp && NoneAwaits(s, side)
    requires s.polls[f].Offering? || (s.polls[f].Awaiting? && s.polls[f].armed)
    ensures Reaches(from, to, side) && CameBack(s, to, f)
  {
    to := GoRound(from, s, side, f);
    to := TimeOut(from, to, side, f);
    assert to.polls == s.polls[f := to.polls[f]];
  }

  /** Any poll with a token can come to the end of its work, unless it is one of this side that waits for a reply. */
  lemma ComeBack(from: State, s: State, side: Side, f: Id) returns (to: State)
    requires Reaches(from, s, side) && f in s.polls && f in s.resp && NoneAwaits(s, side) && HoldsToken(s.polls[f])
    ensures Reaches(from, to, side) && CameBack(s, to, f)
  {
    match s.polls[f]
    case Returning(_, _) =>
      to := s;
      assert s.polls == s.polls[f := s.polls[f]];
    case Received(_, _) => to := StoreReply(from, s, side, f);
    case Offering(_, _) => to := RoundOut(from, s, side, f);
    case Awaiting(_, _, true) => to := RoundOut(from, s, side, f);
    case _ => to := TimeOut(from, s, side, f);
  }

  lemma PutToken(from: State, s: State, side: Side, f: Id) returns (to: State)
    requires Reaches(from, s, side) && f in s.polls && f in s.resp && s.polls[f].Returning?
    ensures Reaches(from, to, side)
    ensures to == SetPoll(s.(p := P.Done(s.p)), f, Leaving(s.polls[f].side, s.polls[f].result))
  {
    to := SetPoll(s.(p := P.Done(s.p)), f, Leaving(s.polls[f].side, s.polls[f].result));
    Extend(from, s, side, OfPoll(PollDone(f)), to);
  }

  // ---------- the barrier drains ----------

  /** Where there is a worker, somebody has a token. */
  lemma SomeToken(s: State) returns (ofPoll: bool, id: Id)
    requires Core(s) && s.p.worker > 0
    ensures if ofPoll then id in s.polls && HoldsToken(s.polls[id]) else id in s.calls && s.calls[id].Token?
  {
    if PollTokens(s.polls) != {} {
      id :| id in PollTokens(s.polls);
      ofPoll := true;
    } else {
      assert CallTokens(s.calls) != {};
      id :| id in CallTokens(s.calls);
      ofPoll := false;
    }
  }

  /** So it can leave. */
  lemma PollLeaves(from: State, s: State, side: Side, f: Id) returns (to: State)
    requires Reaches(from, s, side) && f in s.polls && f in s.resp && NoneAwaits(s, side) && HoldsToken(s.polls[f])
    ensures Reaches(from, to, side) && Drained(s, to) && NoneAwaits(to, side) && to.p == P.Done(s.p)
  {
    to := ComeBack(from, s, side, f);
    to := PutToken(from, to, side, f);
  }

  /** One worker leaves. */
  lemma OneLeaves(from: State, s: State, side: Side) returns (to: State)
    requires Reaches(from, s, side) && Core(s) && s.p.status != P.Paused && s.p.worker > 0 && NoneAwaits(s, side)
    ensures Reaches(from, to, side) && Drained(s, to) && NoneAwaits(to, side)
    ensures to.p.worker == s.p.worker - 1
  {
    var ofPoll, id := SomeToken(s);
    if ofPoll {
      assert id in s.polls.Keys;
      to := PollLeaves(from, s, side, id);
    } else {
      to := ReturnToken(from, s, side, id);
    }
  }

  /** All of them do. */
  lemma {:induction false} Drain(from: State, s: State, side: Side) returns (to: State)
    requires Reaches(from, s, side) && Core(from) && s.p.status != P.Paused && NoneAwaits(s, side)
    ensures Reaches(from, to, side) && Drained(s, to) && to.p.worker == 0
    decreases s.p.worker
  {
    if s.p.worker == 0 {
      to := s;
    } else {
      CoreAtEnd(from, s, side);
      to := OneLeaves(from, s, side);
      to := Drain(from, to, side);
    }
  }

  // ---------- Pause returns ----------

  /** What the upgrader's steps leave as it was. */
  ghost predicate OnlyUpgrade(s: State, s': State) {
    s' == s.(p := s'.p, upgrader := s'.upgrader, attempts := s'.attempts, log := s'.log)
  }

  lemma BeginProbe(from: State, s: State, side: Side) returns (to: State)
    requires Reaches(from, s, side) && s.upgrader.Idle?
    ensures Reaches(from, to, side) && OnlyUpgrade(s, to) && to.p == s.p && to.upgrader.Probing?
  {
    to := s.(upgrader := Probing(s.attempts), attempts := s.attempts + 1);
    Extend(from, s, side, OfUpgrade(Start), to);
  }

  lemma EnterPause(from: State, s: State, side: Side) returns (to: State)
    requires Reaches(from, s, side) && s.upgrader.Probing? && s.conn.Old?
    requires s.p.sleeping + s.p.woken == {} && s.p.worker == 0
    ensures Reaches(from, to, side) && OnlyUpgrade(s, to) && to.upgrader.Frozen?
  {
    to := PauseOutcome(s, P.PauseEnter(s.p, UPGRADER), s.upgrader.attempt);
    Extend(from, s, side, OfUpgrade(Pause), to);
  }

  lemma WakePause(from: State, s: State, side: Side) returns (to: State)
    requires Reaches(from, s, side) && s.upgrader.Pausing? && UPGRADER in s.p.woken
    requires s.p.worker == 0
    ensures Reaches(from, to, side) && OnlyUpgrade(s, to) && to.upgrader.Frozen?
  {
    to := PauseOutcome(s, P.PauseWake(s.p, UPGRADER), s.upgrader.attempt);
    Extend(from, s, side, OfUpgrade(Wake), to);
  }

  /** Without workers, `Pause` returns. */
  lemma PauseReturns(from: State, s: State, side: Side) returns (to: State)
    requires Reaches(from, s, side) && BarrierPhase(s.p, s.upgrader, s.conn)
    requires s.p.status != P.Paused && s.p.worker == 0
    ensures Reaches(from, to, side) && OnlyUpgrade(s, to) && to.upgrader.Frozen?
  {
    to := s;
    if s.upgrader.Pausing? {
      assert UPGRADER in s.p.sleeping + s.p.woken;
      to := WakePause(from, s, side);
    } else {
      if s.upgrader.Idle? {
        to := BeginProbe(from, s, side);
      }
      to := EnterPause(from, to, side);
    }
  }

  /** `Pause` can return as soon as no poll of this side waits, whatever is still out. */
  lemma PauseGetsThrough(s: State, side: Side) returns (to: State)
    requires Core(s) && s.p.status != P.Paused && NoneAwaits(s, side) && StillOut(s, side)
    ensures Reaches(s, to, side) && to.upgrader.Frozen? && StillOut(to, side)
  {
    Stays(s, side);
    var s1;
    s1 := Drain(s, s, side);
    CoreAtEnd(s, s1, side);
    to := PauseReturns(s, s1, side);
    if t :| HoldsAny(s.calls, t, side) {
      assert HoldsAny(to.calls, t, side);
    }
  }

  // ---------- exactly when ----------

  ghost function Poller(step: Step): Id
    requires step.OfPoll? || (step.OfCall? && step.call.Answer?)
  {
    if step.OfPoll? then step.poll.f else step.call.f
  }

  /** What is let go of is still held. */
  lemma LeftHeld(s: State, s': State, step: Step, side: Side)
    requires Core(s) && Next(s, s', step) && Loses(s, step, side)
    ensures StillOut(s', side)
  {
    if side.Writing? {
      assert HoldsAny(s'.calls, s.polls[step.poll.f].partner, Writing);
    } else if step.OfPoll? && s.decoder != Open(step.poll.f) {
      var t :| Holds(s.calls, t, step.poll.f, Reading);
      assert HoldsAny(s'.calls, t, Reading);
    }
  }

  /** The poll that lets go of something was the only one of its side to wait. */
  lemma LeftOut(s: State, s': State, step: Step, side: Side)
    requires Core(s) && Next(s, s', step) && Loses(s, step, side)
    ensures s'.p.status != P.Paused && NoneAwaits(s', side) && StillOut(s', side)
  {
    var f := Poller(step);
    LeftHeld(s, s', step, side);
    assert ClaimsSide(s.polls, f, side);
    forall g | g in s'.polls && s'.polls[g].Awaiting? ensures s'.polls[g].side != side {
      assert g != f ==> !ClaimsSide(s.polls, g, side);
    }
    if s.p.status == P.Paused {
      PausedHasNoTokens(s);
      assert false;
    }
  }

  /** In a run in which no poll of a side has let go of anything that was still out, one more step is taken. From
      there `Pause` can return with something of that side out exactly if that step lets go of something. */
  lemma PauseExactly(states: seq<State>, steps: seq<Step>, step: Step, s': State, side: Side)
    requires Run(states, steps) && Patient(states, steps, |steps|, side)
    requires P.Inv(states[|steps|].p) && Next(states[|steps|], s', step)
    ensures Loses(states[|steps|], step, side)
            <==> exists to :: Reaches(s', to, side) && to.upgrader.Frozen? && StillOut(to, side)
  {
    var s := states[|steps|];
    ReachedBy(states, steps, |steps|, side);
    NextKeepsCore(s, s', step);
    if Loses(s, step, side) {
      LeftOut(s, s', step, side);
      var to := PauseGetsThrough(s', side);
    } else {
      NextKeepsSide(s, s', step, side);
      forall to | Reaches(s', to, side) && to.upgrader.Frozen? ensures !StillOut(to, side) {
        KeptAtEnd(s', to, side);
        PausedIsIn(to, side);
      }
    }
  }

  /** A run in which `Pause` returns while a writer is out: its flush has given up at the deadline. */
  lemma PausedWithWriterOut() returns (states: seq<State>, steps: seq<Step>)
    ensures Run(states, steps) && states[|steps|].upgrader.Frozen? && StillOut(states[|steps|], Writing)
  {
    InitialKept();
    var s, g := FirstOut(INITIAL);
    var step := OfPoll(PollGiveUp(g));
    var s' := SetPoll(s, g, Returning(Writing, TimedOut)).(stored := true);
    NextKeepsCore(s, s', step);
    LeftOut(s, s', step, Writing);
    var to := PauseGetsThrough(s', Writing);
    states, steps := Bridge(INITIAL, s, step, s', to, Writing);
  }
}
