/** Where the promises of `HandoffTheorems` end: what can happen once a poll has let go of what it handed over while
    that is still out. */
module HandoffLimits {
  import P = Pauser
  import opened Handoff
  import opened HandoffProof
  import opened HandoffLedger
  import opened HandoffTheorems

  // ---------- paths ----------

  datatype Path = Path(states: seq<State>, steps: seq<Step>)

  /** A path from one state to another on which no poll of this side lets go of what is still out. */
  ghost predicate Leads(path: Path, from: State, to: State, side: Side) {
    && Linked(path.states, path.steps) && path.states[0] == from && path.states[|path.steps|] == to
    && Patient(path.states, path.steps, |path.steps|, side)
  }

  ghost predicate Phased(s: State) { BarrierPhase(s.p, s.upgrader, s.conn) }

  ghost predicate Reaches(from: State, to: State, side: Side) {
    exists path :: Leads(path, from, to, side) && Phased(to)
  }

  lemma Stays(s: State, side: Side)
    requires Phased(s)
    ensures Reaches(s, s, side)
  {
    assert Leads(Path([s], []), s, s, side);
  }

  lemma PollKeepsPhase(s: State, s': State, step: PollStep)
    requires Phased(s) && PollNext(s, s', step)
    ensures Phased(s')
  {
    PollMoves(s, s', step);
    var f := step.f;
    WorkerMoveKeepsBarrier(s.p, s'.p, Tok(HoldsToken(s'.polls[f])) - PollTok(s.polls, f), s.upgrader, s.conn);
  }

  lemma CallKeepsPhase(s: State, s': State, step: CallStep)
    requires Phased(s) && CallNext(s, s', step)
    ensures Phased(s')
  {
    CallMoves(s, s', step);
    var t := step.t;
    WorkerMoveKeepsBarrier(s.p, s'.p, Tok(s'.calls[t].Token?) - CallTok(s.calls, t), s.upgrader, s.conn);
  }

  lemma NextKeepsPhase(s: State, s': State, step: Step)
    requires Phased(s) && Next(s, s', step)
    ensures Phased(s')
  {
    match step
    case OfPoll(x) => PollKeepsPhase(s, s', x);
    case OfCall(x) => CallKeepsPhase(s, s', x);
    case OfUpgrade(x) => UpgradeMoves(s, s', x);
    case OfClock(_) =>
  }

  lemma Extend(from: State, to: State, side: Side, step: Step, to': State)
    requires Reaches(from, to, side) && Next(to, to', step) && !Loses(to, step, side)
    ensures Reaches(from, to', side)
  {
    NextKeepsPhase(to, to', step);
    var path :| Leads(path, from, to, side);
    assert Leads(Path(path.states + [to'], path.steps + [step]), from, to', side);
  }

  /** What holds where a path starts holds along it. */
  lemma {:induction false} KeptAlong(path: Path, from: State, to: State, side: Side, i: nat)
    requires Leads(path, from, to, side) && Kept(from, side) && i < |path.states|
    ensures Kept(path.states[i], side)
  {
    if i > 0 {
      KeptAlong(path, from, to, side, i - 1);
      NextKeepsSide(path.states[i - 1], path.states[i], path.steps[i - 1], side);
    }
  }

  lemma KeptAtEnd(from: State, to: State, side: Side)
    requires Reaches(from, to, side) && Kept(from, side)
    ensures Kept(to, side)
  {
    var path :| Leads(path, from, to, side);
    KeptAlong(path, from, to, side, |path.steps|);
  }

  lemma {:induction false} CoreAlong(path: Path, from: State, to: State, side: Side, i: nat)
    requires Leads(path, from, to, side) && Core(from) && i < |path.states|
    ensures Core(path.states[i])
  {
    if i > 0 {
      CoreAlong(path, from, to, side, i - 1);
      NextKeepsCore(path.states[i - 1], path.states[i], path.steps[i - 1]);
    }
  }

  lemma CoreAtEnd(from: State, to: State, side: Side)
    requires Reaches(from, to, side) && Core(from)
    ensures Core(to)
  {
    var path :| Leads(path, from, to, side);
    CoreAlong(path, from, to, side, |path.steps|);
  }

  /** One state reaches the next but for one step of any kind. */
  lemma Bridge(from: State, s: State, step: Step, s': State, to: State, side: Side)
      returns (states: seq<State>, steps: seq<Step>)
    requires Reaches(from, s, side) && P.Inv(s.p) && Next(s, s', step) && Reaches(s', to, side)
    ensures Linked(states, steps) && states[0] == from && states[|steps|] == to && step in steps
  {
    var first :| Leads(first, from, s, side);
    var second :| Leads(second, s', to, side);
    states, steps := first.states + second.states, first.steps + [step] + second.steps;
    var n := |first.steps|;
    assert steps[n] == step;
    forall i | 0 <= i < |steps|
      ensures P.Inv(states[i].p) && Next(states[i], states[i + 1], steps[i])
    {
      if i > n {
        assert steps[i] == second.steps[i - n - 1] && states[i] == second.states[i - n - 1];
        assert states[i + 1] == second.states[i - n];
      }
    }
  }

  lemma {:induction false} FreshId(ids: set<Id>) returns (id: Id)
    ensures forall x :: x in ids ==> x < id
  {
    if ids == {} {
      id := 0;
    } else {
      var x :| x in ids;
      var n := FreshId(ids - {x});
      id := n + x + 1;
      assert forall y :: y in ids ==> y in ids - {x} || y == x;
    }
  }

  // ---------- a writer is handed over ----------

  /** The barrier is not paused, the write deadline has not passed, and no flush has the flag. */
  ghost predicate Free(s: State) {
    s.p.status != P.Paused && s.conn.Old? && Writing !in s.busy && Writing !in s.late
  }

  /** A new flush finds the payload open. */
  lemma EnterPoll(from: State, s: State, g: Id) returns (to: State)
    requires Reaches(from, s, Writing) && !s.closed && g !in s.polls
    ensures Reaches(from, to, Writing)
    ensures to == s.(resp := s.resp[g := []], polls := s.polls[g := Entered(Writing)])
  {
    to := SetPoll(s.(resp := s.resp[g := []]), g, Entered(Writing));
    Extend(from, s, Writing, OfPoll(PollStart(g, Writing)), to);
  }

  /** And takes the flag. */
  lemma ClaimFlag(from: State, s: State, g: Id) returns (to: State)
    requires Reaches(from, s, Writing) && Free(s)
    requires g in s.polls && g in s.resp && s.polls[g] == Entered(Writing)
    ensures Reaches(from, to, Writing)
    ensures to == s.(busy := s.busy + {Writing}, polls := s.polls[g := Claimed(Writing)])
  {
    to := SetPoll(s.(busy := s.busy + {Writing}), g, Claimed(Writing));
    Extend(from, s, Writing, OfPoll(PollClaim(g)), to);
  }

  /** What the steps of the poll `g` leave as it was. */
  ghost predicate OnlyPoll(s: State, s': State, g: Id) {
    && g in s'.polls && s'.p.status == s.p.status
    && s' == s.(p := s'.p, polls := s.polls[g := s'.polls[g]], busy := s'.busy)
  }

  /** And comes as far as its first select. */
  lemma OfferPoll(from: State, s: State, g: Id) returns (to: State)
    requires Reaches(from, s, Writing) && s.p.status != P.Paused && Writing !in s.late
    requires g in s.polls && g in s.resp && s.polls[g] == Claimed(Writing)
    ensures Reaches(from, to, Writing) && OnlyPoll(s, to, g) && to.polls[g] == Offering(Writing, to.p.pausing)
  {
    var s1 := SetPoll(s.(p := P.Working(s.p).0), g, Holding(Writing));
    Extend(from, s, Writing, OfPoll(PollWork(g)), s1);
    to := SetPoll(s1, g, Offering(Writing, s1.p.pausing));
    Extend(from, s1, Writing, OfPoll(PollArm(g)), to);
    assert to.polls == s.polls[g := Offering(Writing, to.p.pausing)];
  }

  /** A new call copies the old connection. */
  lemma StartCall(from: State, s: State, u: Id) returns (to: State)
    requires Reaches(from, s, Writing) && s.conn.Old? && u !in s.calls
    ensures Reaches(from, to, Writing) && to == s.(calls := s.calls[u := Snapped(Writing, Old)])
  {
    var s1 := SetCall(s, u, Fresh(Writing));
    Extend(from, s, Writing, OfCall(CallStart(u, Writing)), s1);
    to := SetCall(s1, u, Snapped(Writing, Old));
    Extend(from, s1, Writing, OfCall(CallSnapshot(u)), to);
    assert to.calls == s.calls[u := Snapped(Writing, Old)];
  }

  /** And finds the payload open. */
  lemma CheckCall(from: State, s: State, u: Id) returns (to: State)
    requires Reaches(from, s, Writing) && !s.closed
    requires u in s.calls && s.calls[u] == Snapped(Writing, Old)
    ensures Reaches(from, to, Writing) && to == s.(calls := s.calls[u := Checked(Writing)])
  {
    to := SetCall(s, u, Checked(Writing));
    Extend(from, s, Writing, OfCall(CallCheck(u)), to);
  }

  /** What the steps of the call `u` leave as it was. */
  ghost predicate OnlyCall(s: State, s': State, u: Id) {
    && u in s'.calls && s'.p.status == s.p.status
    && s' == s.(p := s'.p, calls := s.calls[u := s'.calls[u]])
  }

  ghost predicate MayWait(ph: Call) {
    ph.side.Writing? && BehindCheck(ph)
  }

  /** It takes a token. */
  lemma TakeToken(from: State, s: State, u: Id) returns (to: State)
    requires Reaches(from, s, Writing) && s.p.status != P.Paused
    requires u in s.calls && s.calls[u] == Checked(Writing)
    ensures Reaches(from, to, Writing) && OnlyCall(s, to, u) && to.calls[u] == Token(Writing)
  {
    to := SetCall(s.(p := P.Working(s.p).0), u, Token(Writing));
    Extend(from, s, Writing, OfCall(CallWork(u)), to);
  }

  /** It gives its token back. */
  lemma ReturnToken(from: State, s: State, side: Side, u: Id) returns (to: State)
    requires Reaches(from, s, side) && u in s.calls && s.calls[u].Token?
    ensures Reaches(from, to, side) && OnlyCall(s, to, u) && to.calls[u] == Armed(s.calls[u].side)
    ensures to.p == P.Done(s.p)
  {
    to := SetCall(s.(p := P.Done(s.p)), u, Armed(s.calls[u].side));
    Extend(from, s, side, OfCall(CallDone(u)), to);
  }

  /** It enters its select. */
  lemma ArmCall(from: State, s: State, u: Id) returns (to: State)
    requires Reaches(from, s, Writing) && Writing !in s.late
    requires u in s.calls && s.calls[u] == Armed(Writing)
    ensures Reaches(from, to, Writing) && OnlyCall(s, to, u) && to.calls[u] == Waiting(Writing, s.p.paused)
  {
    to := SetCall(s, u, Waiting(Writing, s.p.paused));
    Extend(from, s, Writing, OfCall(CallArm(u)), to);
  }

  ghost predicate Waits(s: State, to: State, u: Id) {
    OnlyCall(s, to, u) && to.calls[u].Waiting? && to.calls[u].side == Writing
  }

  lemma TokenWaits(from: State, s: State, u: Id) returns (to: State)
    requires Reaches(from, s, Writing) && Writing !in s.late && u in s.calls && s.calls[u] == Token(Writing)
    ensures Reaches(from, to, Writing) && Waits(s, to, u)
  {
    to := ReturnToken(from, s, Writing, u);
    to := ArmCall(from, to, u);
    assert to.calls == s.calls[u := to.calls[u]];
  }

  lemma CheckedWaits(from: State, s: State, u: Id) returns (to: State)
    requires Reaches(from, s, Writing) && s.p.status != P.Paused && Writing !in s.late
    requires u in s.calls && s.calls[u] == Checked(Writing)
    ensures Reaches(from, to, Writing) && Waits(s, to, u)
  {
    to := TakeToken(from, s, u);
    to := TokenWaits(from, to, u);
    assert to.calls == s.calls[u := to.calls[u]];
  }

  /** From behind its check a call can come to wait for a poll, even if the payload is closed meanwhile. */
  lemma WaitingCall(from: State, s: State, u: Id) returns (to: State)
    requires Reaches(from, s, Writing) && s.p.status != P.Paused && Writing !in s.late
    requires u in s.calls && MayWait(s.calls[u])
    ensures Reaches(from, to, Writing) && Waits(s, to, u)
  {
    if s.calls[u].Checked? {
      to := CheckedWaits(from, s, u);
    } else if s.calls[u].Token? {
      to := TokenWaits(from, s, u);
    } else if s.calls[u].Armed? {
      to := ArmCall(from, s, u);
    } else {
      to := s;
      assert s.calls == s.calls[u := s.calls[u]];
    }
  }

  /** The call and the poll meet. */
  lemma MeetPoll(from: State, s: State, g: Id, u: Id) returns (to: State)
    requires Reaches(from, s, Writing)
    requires u in s.calls && s.calls[u].Waiting? && s.calls[u].side == Writing
    requires g in s.polls && s.polls[g].Offering? && s.polls[g].side == Writing
    ensures Reaches(from, to, Writing) && to.p == s.p && to.resp == s.resp && to.closed == s.closed
    ensures to.polls == s.polls[g := Awaiting(Writing, u, false)] && to.calls == s.calls[u := Out(Writing, g, Got)]
  {
    to := s.(polls := s.polls[g := Awaiting(Writing, u, false)], calls := s.calls[u := Out(Writing, g, Got)],
             log := s.log + [HandOver(Old, Writing, u)]);
    Extend(from, s, Writing, OfCall(Meet(u, g)), to);
  }

  /** A flush and a writing call have passed their checks. */
  ghost predicate Behind(s: State, g: Id, u: Id) {
    g in s.polls && g in s.resp && s.polls[g] == Entered(Writing) && u in s.calls && MayWait(s.calls[u])
  }

  /** While the flag is down, a flush behind its check and a call behind its own can meet. */
  lemma Rendezvous(from: State, s: State, g: Id, u: Id) returns (to: State)
    requires Reaches(from, s, Writing) && Free(s) && Behind(s, g, u)
    ensures Reaches(from, to, Writing) && to.closed == s.closed && to.resp == s.resp
    ensures to.polls == s.polls[g := Awaiting(Writing, u, false)] && to.calls == s.calls[u := Out(Writing, g, Got)]
  {
    to := ClaimFlag(from, s, g);
    to := OfferPoll(from, to, g);
    to := WaitingCall(from, to, u);
    to := MeetPoll(from, to, g, u);
    assert to.polls == s.polls[g := Awaiting(Writing, u, false)] && to.calls == s.calls[u := Out(Writing, g, Got)];
  }

  /** An open payload lets a new flush and a new call in. */
  lemma LetIn(from: State, s: State) returns (to: State, g: Id, u: Id)
    requires Reaches(from, s, Writing) && Free(s) && !s.closed
    ensures Reaches(from, to, Writing) && Free(to) && Behind(to, g, u) && u !in s.calls
    ensures to.calls == s.calls[u := Checked(Writing)] && !to.closed
  {
    g := FreshId(s.polls.Keys);
    u := FreshId(s.calls.Keys);
    assert g !in s.polls && u !in s.calls;
    to := EnterPoll(from, s, g);
    to := StartCall(from, to, u);
    to := CheckCall(from, to, u);
    assert to.calls == s.calls[u := Checked(Writing)];
  }

  // ---------- a side on which nothing is handed over ----------

  /** Two calls hold a writer. */
  ghost predicate TwoOut(s: State) {
    exists t, u :: t != u && HoldsAny(s.calls, t, Writing) && HoldsAny(s.calls, u, Writing)
  }

  ghost predicate MayOffer(ph: Poll) {
    ph.side.Writing? && (ph.Entered? || ph.Claimed? || ph.Holding? || ph.Offering?)
  }

  /** The payload is closed, and no flush or no writing call is behind the check. */
  ghost predicate Shut(s: State) {
    && s.closed
    && ((forall g :: g in s.polls ==> !MayOffer(s.polls[g]))
        || (forall u :: u in s.calls ==> !MayWait(s.calls[u])))
  }

  /** The write deadline has passed, and no flush is in its first select. */
  ghost predicate Late(s: State) {
    Writing in s.late && forall g :: g in s.polls && s.polls[g].side.Writing? ==> !s.polls[g].Offering?
  }

  /** No call holds a writer that did not before. */
  ghost predicate NoneGained(s: State, s': State) {
    forall t :: HoldsAny(s'.calls, t, Writing) ==> HoldsAny(s.calls, t, Writing)
  }

  lemma NoMoreOut(s: State, s': State)
    requires !TwoOut(s) && NoneGained(s, s')
    ensures !TwoOut(s')
  {
  }

  lemma PollStaysShut(s: State, s': State, step: PollStep)
    requires PollNext(s, s', step)
    ensures (Shut(s) ==> Shut(s')) && (Late(s) ==> Late(s')) && NoneGained(s, s')
  {
    PollMoves(s, s', step);
  }

  /** No writer is handed over. */
  lemma NothingHandedOver(s: State, s': State, step: CallStep)
    requires (Shut(s) || Late(s)) && CallNext(s, s', step)
    ensures NoneGained(s, s')
    ensures forall g :: g in s'.polls && MayOffer(s'.polls[g]) ==> g in s.polls && s.polls[g] == s'.polls[g]
  {
    CallMoves(s, s', step);
    if step.Meet? && s.calls[step.t].side.Writing? {
      assert MayOffer(s.polls[step.f]) && MayWait(s.calls[step.t]);
      assert false;
    }
  }

  lemma CallStaysShut(s: State, s': State, step: CallStep)
    requires (Shut(s) || Late(s)) && CallNext(s, s', step)
    ensures (Shut(s) ==> Shut(s')) && (Late(s) ==> Late(s')) && NoneGained(s, s')
  {
    CallMoves(s, s', step);
    NothingHandedOver(s, s', step);
  }

  lemma UpgradeStaysShut(s: State, s': State, step: UpgradeStep)
    requires Core(s) && UpgradeNext(s, s', step)
    ensures (Shut(s) ==> Shut(s')) && (Late(s) ==> Late(s')) && NoneGained(s, s')
  {
    UpgradeMoves(s, s', step);
  }

  lemma ClockStaysShut(s: State, s': State, step: ClockStep)
    requires ClockNext(s, s', step)
    ensures (Shut(s) ==> Shut(s')) && (Late(s) && step != SetDeadline(Writing) ==> Late(s')) && NoneGained(s, s')
  {
  }

  /** Behind a closed check no writer is handed over any more, nor before a late deadline is set anew. */
  lemma NextStaysShut(s: State, s': State, step: Step)
    requires Core(s) && (Shut(s) || Late(s)) && !TwoOut(s) && Next(s, s', step)
    ensures Shut(s) ==> Shut(s')
    ensures Late(s) && step != OfClock(SetDeadline(Writing)) ==> Late(s')
    ensures !TwoOut(s')
  {
    match step {
      case OfPoll(x) => PollStaysShut(s, s', x);
      case OfCall(x) => CallStaysShut(s, s', x);
      case OfUpgrade(x) => UpgradeStaysShut(s, s', x);
      case OfClock(x) => ClockStaysShut(s, s', x);
    }
    NoMoreOut(s, s');
  }

  /** Along a path that starts shut, or late without a new deadline, there are never two writers out. */
  lemma {:induction false} ShutAlong(path: Path, from: State, to: State, i: nat)
    requires Leads(path, from, to, Writing) && Core(from) && !TwoOut(from) && i < |path.states|
    requires Shut(from) || (Late(from) && OfClock(SetDeadline(Writing)) !in path.steps)
    ensures !TwoOut(path.states[i]) && (Shut(path.states[i]) || Late(path.states[i]))
    ensures Shut(from) ==> Shut(path.states[i])
  {
    if i > 0 {
      ShutAlong(path, from, to, i - 1);
      assert path.steps[i - 1] in path.steps;
      CoreAlong(path, from, to, Writing, i - 1);
      NextStaysShut(path.states[i - 1], path.states[i], path.steps[i - 1]);
    }
  }

  // ---------- a flush gives up ----------

  /** A flush that has given up leaves the barrier and its flag. */
  lemma LeavePayload(s: State, f: Id) returns (to: State)
    requires Phased(s) && f in s.polls && f in s.resp && s.polls[f] == Returning(Writing, TimedOut)
    ensures Reaches(s, to, Writing) && OnlyPoll(s, to, f) && Writing !in to.busy
    ensures to.polls[f] == Finished(Writing, TimedOut)
  {
    Stays(s, Writing);
    var s1 := SetPoll(s.(p := P.Done(s.p)), f, Leaving(Writing, TimedOut));
    Extend(s, s, Writing, OfPoll(PollDone(f)), s1);
    to := SetPoll(s1.(busy := s1.busy - {Writing}), f, Finished(Writing, TimedOut));
    Extend(s, s1, Writing, OfPoll(PollRelease(f)), to);
    assert to.polls == s.polls[f := Finished(Writing, TimedOut)];
  }

  /** And the session sets the deadline anew. */
  lemma MoveDeadline(from: State, s: State) returns (to: State)
    requires Reaches(from, s, Writing) && s.conn.Old?
    ensures Reaches(from, to, Writing) && to == s.(late := s.late - {Writing})
  {
    to := s.(late := s.late - {Writing});
    Extend(from, s, Writing, OfClock(SetDeadline(Writing)), to);
  }

  /** The payload is open, or a flush and a writing call have passed their checks before it was closed. */
  ghost predicate Enterable(s: State) {
    !s.closed || exists g, u :: Behind(s, g, u)
  }

  /** After a flush gives up, two calls can come to hold a writer exactly if its own was still out and a flush and a
      call can still come in. (A feed that gives up is another matter: no second reader is ever out.) */
  lemma GivingUpExactly(states: seq<State>, steps: seq<Step>, f: Id, s': State)
    requires Run(states, steps) && Patient(states, steps, |steps|, Writing)
    requires DoPollGiveUp(states[|steps|], s', f) && states[|steps|].polls[f].side.Writing?
    ensures Abandons(states[|steps|], OfPoll(PollGiveUp(f))) && Enterable(states[|steps|])
            <==> exists to :: Reaches(s', to, Writing) && TwoOut(to)
  {
    var (s, step) := (states[|steps|], OfPoll(PollGiveUp(f)));
    ReachedBy(states, steps, |steps|, Writing);
    if !Abandons(s, step) {
      NextKeepsSide(s, s', step, Writing);
      forall to | Reaches(s', to, Writing) ensures !TwoOut(to) {
        KeptAtEnd(s', to, Writing);
        ExclusionHolds(to);
      }
    } else if Enterable(s) {
      var to := BreakIn(s, s', f);
    } else {
      LeftShut(s, s', f);
      forall to | Reaches(s', to, Writing) ensures !TwoOut(to) {
        var path :| Leads(path, s', to, Writing);
        ShutAlong(path, s', to, |path.steps|);
      }
    }
  }

  /** And it takes a new deadline: every other flush and writing call would time out as well. */
  lemma SecondNeedsDeadline(states: seq<State>, steps: seq<Step>, f: Id, s': State, path: Path, to: State)
    requires Run(states, steps) && Patient(states, steps, |steps|, Writing)
    requires DoPollGiveUp(states[|steps|], s', f) && states[|steps|].polls[f].side.Writing?
    requires Leads(path, s', to, Writing) && TwoOut(to)
    ensures OfClock(SetDeadline(Writing)) in path.steps
  {
    var s := states[|steps|];
    ReachedBy(states, steps, |steps|, Writing);
    LeftLate(s, s', f);
    if OfClock(SetDeadline(Writing)) !in path.steps {
      ShutAlong(path, s', to, |path.steps|);
    }
  }

  lemma ExclusionHolds(s: State)
    requires Inv(s)
    ensures !TwoOut(s)
  {
    forall t, u | HoldsAny(s.calls, t, Writing) && HoldsAny(s.calls, u, Writing) ensures t == u {
      OneOut(s, t, u);
    }
  }

  lemma StillExcluded(s: State, s': State, f: Id)
    requires Inv(s) && DoPollGiveUp(s, s', f)
    ensures !TwoOut(s')
  {
    ExclusionHolds(s);
    NoMoreOut(s, s');
  }

  /** The flush that gave up was the only one behind the flag. */
  lemma LeftLate(s: State, s': State, f: Id)
    requires AllKept(s) && DoPollGiveUp(s, s', f) && s.polls[f].side.Writing?
    ensures Core(s') && Late(s') && !TwoOut(s')
    ensures forall g :: g in s'.polls && MayOffer(s'.polls[g]) ==> s'.polls[g] == Entered(Writing)
  {
    NextKeepsCore(s, s', OfPoll(PollGiveUp(f)));
    StillExcluded(s, s', f);
    assert ClaimsSide(s.polls, f, Writing);
    forall g | g in s'.polls && MayOffer(s'.polls[g]) ensures s'.polls[g] == Entered(Writing) {
      assert !ClaimsSide(s.polls, g, Writing);
    }
  }

  lemma LeftShut(s: State, s': State, f: Id)
    requires AllKept(s) && DoPollGiveUp(s, s', f) && s.polls[f].side.Writing? && !Enterable(s)
    ensures Core(s') && Shut(s') && !TwoOut(s')
  {
    LeftLate(s, s', f);
    if g, u :| g in s'.polls && MayOffer(s'.polls[g]) && u in s'.calls && MayWait(s'.calls[u]) {
      assert Behind(s, g, u);
    }
  }

  lemma StaysEnterable(s: State, s': State, f: Id)
    requires DoPollGiveUp(s, s', f) && Enterable(s)
    ensures Enterable(s')
  {
    if s.closed {
      var g, u :| Behind(s, g, u);
      assert Behind(s', g, u);
    }
  }

  /** A flag that is given up is free for a flush and a call that can come in. */
  lemma ComeIn(s: State, f: Id) returns (to: State, g: Id, u: Id)
    requires Phased(s) && s.p.status != P.Paused && s.conn.Old? && Enterable(s)
    requires f in s.polls && f in s.resp && s.polls[f] == Returning(Writing, TimedOut)
    ensures Reaches(s, to, Writing) && Free(to) && Behind(to, g, u)
    ensures forall t :: HoldsAny(s.calls, t, Writing) ==> HoldsAny(to.calls, t, Writing) && t != u
  {
    to := LeavePayload(s, f);
    to := MoveDeadline(s, to);
    if s.closed {
      g, u :| Behind(s, g, u);
    } else {
      to, g, u := LetIn(s, to);
    }
  }

  lemma BreakIn(s: State, s': State, f: Id) returns (to: State)
    requires Core(s) && DoPollGiveUp(s, s', f) && Abandons(s, OfPoll(PollGiveUp(f))) && Enterable(s)
    ensures Reaches(s', to, Writing) && TwoOut(to)
  {
    var t := s.polls[f].partner;
    if s.p.status == P.Paused {
      PausedHasNoTokens(s);
      assert false;
    }
    assert HoldsAny(s'.calls, t, Writing);
    StaysEnterable(s, s', f);
    var s1, g, u;
    s1, g, u := ComeIn(s', f);
    to := Rendezvous(s', s1, g, u);
    assert HoldsAny(to.calls, t, Writing) && HoldsAny(to.calls, u, Writing);
  }

  /** Where the payload is open and the flag is down, a flush can hand its writer over, and the deadline pass. */
  lemma FirstOut(from: State) returns (s: State, g: Id)
    requires Kept(from, Writing) && Free(from) && !from.closed
    ensures Reaches(from, s, Writing) && Kept(s, Writing) && !s.closed && Writing in s.late
    ensures g in s.polls && g in s.resp && s.polls[g].Awaiting? && s.polls[g].side == Writing && !s.polls[g].armed
    ensures Holds(s.calls, s.polls[g].partner, g, Writing)
  {
    var s1, u;
    Stays(from, Writing);
    s1, g, u := LetIn(from, from);
    s1 := Rendezvous(from, s1, g, u);
    s := s1.(late := s1.late + {Writing});
    Extend(from, s1, Writing, OfClock(Pass(Writing)), s);
    KeptAtEnd(from, s, Writing);
    assert g in s.polls.Keys;
  }

  /** A run in which two writers are out: the first flush hands its writer over and gives up at the deadline, the
      session sets a new one, and the second flush hands its own over while the first is still out. */
  lemma TwoWritersOut() returns (states: seq<State>, steps: seq<Step>)
    ensures Run(states, steps) && TwoOut(states[|steps|])
  {
    InitialKept();
    var s, g := FirstOut(INITIAL);
    var s' := SetPoll(s, g, Returning(Writing, TimedOut)).(stored := true);
    var to := BreakIn(s, s', g);
    states, steps := Bridge(INITIAL, s, OfPoll(PollGiveUp(g)), s', to, Writing);
  }
}
