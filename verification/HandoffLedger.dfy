/** The books every run of `Handoff` keeps: which call set up the encoder, what each response holds, what is
    on the wire, and the order of the log. */
module HandoffLedger {
  import P = Pauser
  import opened Handoff
  import opened HandoffProof

  // ---------- invariants ----------

  /** A writer past its set-up finds its own poll and its own frame in the shared encoder. */
  ghost predicate Encoder(s: State) {
    forall t :: HoldsAny(s.calls, t, Writing) && s.calls[t].stage != Got ==>
      s.rawWriter == s.calls[t].poll && s.frameOwner == t
  }

  ghost predicate Responses(s: State) {
    && s.resp.Keys == s.polls.Keys
    && forall f :: f in s.polls && f in s.resp ==> RespFits(f, s.polls[f], s.resp[f], s.calls)
  }

  /** The packet of call `t` is in the response of poll `f`. */
  ghost predicate Carries(resp: map<Id, seq<Item>>, f: Id, t: Id) {
    f in resp && PacketOf(t) in resp[f]
  }

  /** The packets on the old wire are those in the responses, each in one. */
  ghost predicate Placed(resp: map<Id, seq<Item>>, wire: seq<(Conn, Id)>) {
    && (forall f: Id, t: Id :: Carries(resp, f, t) ==> (Old, t) in wire)
    && (forall f, g, t :: Carries(resp, f, t) && Carries(resp, g, t) ==> f == g)
    && (forall t: Id :: (Old, t) in wire ==> exists f :: Carries(resp, f, t))
  }

  /** A call whose packet may be on the wire. */
  ghost predicate MayBeSent(calls: map<Id, Call>, t: Id) {
    t in calls && (HasWritten(calls[t]) || (calls[t].Ended? && calls[t].side.Writing?))
  }

  ghost predicate OnWire(wire: seq<(Conn, Id)>, t: Id) {
    exists conn :: (conn, t) in wire
  }

  /** The wire lists writers, none twice, the old connection's before the installed one's; it has the packet
      of every writer that is past a whole write. */
  ghost predicate Wire(wire: seq<(Conn, Id)>, calls: map<Id, Call>, conn: Conn) {
    && (forall i :: 0 <= i < |wire| ==> MayBeSent(calls, wire[i].1) && (wire[i].0.New? ==> wire[i].0 == conn))
    && (forall i, j :: 0 <= i < j < |wire| ==> wire[i].1 != wire[j].1 && (wire[i].0.New? ==> wire[j].0.New?))
    && (forall t :: t in calls && HasWritten(calls[t]) ==> (Old, t) in wire)
    && (forall t :: t in calls && calls[t] == Ended(Writing, true) ==> OnWire(wire, t))
  }

  /** The call was handed something on the connection and cannot be handed anything any more. */
  ghost predicate Served(calls: map<Id, Call>, t: Id, side: Side, conn: Conn) {
    && t in calls && calls[t].side == side && HandedOver(calls[t])
    && (conn.Old? ==> !calls[t].OutNew?)
  }

  /** Each call is handed something at most once. */
  ghost predicate HandedOnce(log: seq<Event>, calls: map<Id, Call>) {
    && (forall i :: 0 <= i < |log| && log[i].HandOver? ==> Served(calls, log[i].call, log[i].side, log[i].conn))
    && (forall i, j :: 0 <= i < j < |log| && log[i].HandOver? && log[j].HandOver? ==> log[i].call != log[j].call)
  }

  /** What a writing call holds or wrote is what it was handed, once. */
  ghost predicate Handed(log: seq<Event>, wire: seq<(Conn, Id)>, calls: map<Id, Call>) {
    && HandedOnce(log, calls)
    && (forall t :: HoldsAny(calls, t, Writing) ==> HandOver(Old, Writing, t) in log)
    && (forall t :: t in calls && calls[t].OutNew? ==> HandOver(New(calls[t].attempt), calls[t].side, t) in log)
    && (forall i :: 0 <= i < |wire| ==> HandOver(wire[i].0, Writing, wire[i].1) in log)
  }

  /** The last of `PauseReturned` and `Resumed` in the log is a `PauseReturned`. */
  ghost predicate FrozenAfter(log: seq<Event>) {
    if log == [] then false
    else if log[|log| - 1].PauseReturned? then true
    else if log[|log| - 1].Resumed? then false
    else FrozenAfter(log[..|log| - 1])
  }

  /** Where each event may stand in the log. */
  ghost predicate WellPlaced(log: seq<Event>, i: nat)
    requires i < |log|
  {
    match log[i]
    case HandOver(conn, _, _) => if conn.Old? then !FrozenAfter(log[..i]) else SwappedTo(conn.attempt) in log[..i]
    case SwappedTo(k) =>
      FrozenAfter(log[..i]) && forall j :: i < j < |log| ==> log[j].HandOver? && log[j].conn == New(k)
    case _ => true
  }

  ghost predicate Ordered(log: seq<Event>, paused: bool, conn: Conn) {
    && (FrozenAfter(log) <==> paused)
    && (forall i :: 0 <= i < |log| ==> WellPlaced(log, i))
    && (forall i :: 0 <= i < |log| && log[i].SwappedTo? ==> conn == New(log[i].attempt))
    && (conn.New? ==> SwappedTo(conn.attempt) in log)
  }

  ghost predicate Ledger(s: State) {
    && Encoder(s)
    && Responses(s)
    && Placed(s.resp, s.wire)
    && Wire(s.wire, s.calls, s.conn)
    && Handed(s.log, s.wire, s.calls)
    && Ordered(s.log, s.p.status == P.Paused, s.conn)
  }

  // ---------- the barrier ----------

  /** While the barrier is paused nobody has a token, so nobody is in a select either. */
  lemma PausedHasNoTokens(s: State)
    requires Core(s) && s.p.status == P.Paused
    ensures s.p.worker == 0
    ensures forall f :: f in s.polls ==> !HoldsToken(s.polls[f])
    ensures forall t :: t in s.calls ==> !s.calls[t].Token?
  {
    TokenCounts(s.p.worker, s.polls, s.calls);
    forall f | f in s.polls ensures !HoldsToken(s.polls[f]) {
      assert PollTok(s.polls, f) <= 0;
    }
    forall t | t in s.calls ensures !s.calls[t].Token? {
      assert CallTok(s.calls, t) <= 0;
    }
  }

  /** And nobody holds a writer of the payload. */
  lemma PausedIsEmpty(s: State)
    requires Inv(s) && s.p.status == P.Paused
    ensures forall f :: f in s.polls ==> !HoldsToken(s.polls[f])
    ensures forall t :: !HoldsAny(s.calls, t, Writing)
  {
    PausedHasNoTokens(s);
    forall t ensures !HoldsAny(s.calls, t, Writing) {
      assert HoldsAny(s.calls, t, Writing) ==> Holds(s.calls, t, s.calls[t].poll, Writing);
    }
  }

  /** Two calls that hold a writer are the same call. */
  lemma OneOut(s: State, t: Id, u: Id)
    requires Inv(s) && HoldsAny(s.calls, t, Writing) && HoldsAny(s.calls, u, Writing)
    ensures t == u
  {
    assert Holds(s.calls, t, s.calls[t].poll, Writing) && Holds(s.calls, u, s.calls[u].poll, Writing);
    assert ClaimsSide(s.polls, s.calls[t].poll, Writing) && ClaimsSide(s.polls, s.calls[u].poll, Writing);
  }

  // ---------- the log ----------

  lemma AppendOrdered(log: seq<Event>, paused: bool, conn: Conn, e: Event, paused': bool, conn': Conn)
    requires Ordered(log, paused, conn)
    requires match e
             case HandOver(c, _, _) => paused' == paused && conn' == conn && c == conn && (c.Old? ==> !paused)
             case PauseReturned => paused' && conn' == conn && conn.Old?
             case Resumed => !paused' && conn' == conn && conn.Old?
             case SwappedTo(k) => paused && paused' && conn.Old? && conn' == New(k)
    ensures Ordered(log + [e], paused', conn')
  {
    var log' := log + [e];
    assert log'[..|log|] == log;
    assert forall x :: x in log' <==> x in log || x == e;
    forall i | 0 <= i < |log'|
      ensures WellPlaced(log', i)
    {
      if i < |log| {
        assert log'[..i] == log[..i];
        assert WellPlaced(log, i);
        if log[i].SwappedTo? {
          assert e.HandOver? && e.conn == New(log[i].attempt);
          forall j | i < j < |log'| ensures log'[j].HandOver? && log'[j].conn == New(log[i].attempt) {
            assert j < |log| ==> log'[j] == log[j];
          }
        }
      }
    }
  }

  /** A log that is not frozen has resumed after each pause. */
  lemma {:induction false} ResumedSince(log: seq<Event>, i: nat)
    requires i < |log| && log[i].PauseReturned? && !FrozenAfter(log)
    ensures exists k :: i < k < |log| && log[k].Resumed?
  {
    var n := |log| - 1;
    if !log[n].Resumed? {
      assert i < n && log[..n][i] == log[i];
      ResumedSince(log[..n], i);
      var k :| i < k < n && log[..n][k].Resumed?;
      assert log[k].Resumed?;
    }
  }

  // ---------- poll steps ----------

  lemma PollKeepsPlaces(s: State, s': State, f: Id)
    requires Responses(s) && Placed(s.resp, s.wire) && PollMove(s, s', f)
    ensures Placed(s'.resp, s'.wire)
  {
    forall g, t ensures Carries(s'.resp, g, t) <==> Carries(s.resp, g, t) {
      assert f !in s.resp ==> s'.resp[f] == [];
    }
    forall t | (Old, t) in s'.wire
      ensures exists g :: Carries(s'.resp, g, t)
    {
      var g :| Carries(s.resp, g, t);
      assert Carries(s'.resp, g, t);
    }
  }

  lemma PollKeepsResponses(s: State, s': State, f: Id)
    requires Responses(s) && PollMove(s, s', f)
    ensures Responses(s')
  {
  }

  lemma PollMoveKeepsLedger(s: State, s': State, f: Id)
    requires Ledger(s) && PollMove(s, s', f)
    ensures Ledger(s')
  {
    PollKeepsPlaces(s, s', f);
    PollKeepsResponses(s, s', f);
    assert s'.p.status == s.p.status;
  }

  lemma PollKeepsLedger(s: State, s': State, step: PollStep)
    requires Ledger(s) && PollNext(s, s', step)
    ensures Ledger(s')
  {
    PollMoves(s, s', step);
    PollMoveKeepsLedger(s, s', step.f);
  }

  // ---------- quiet call steps ----------

  lemma QuietMoves(s: State, s': State, step: CallStep)
    requires CallNext(s, s', step) && !Noisy(step)
    ensures CallMove(s, s', step.t) && Quiet(s, s', step.t)
  {
    QuietCallMoves(s, s', step);
  }

  lemma QuietKeepsEncoder(s: State, s': State, t: Id)
    requires Encoder(s) && CallMove(s, s', t) && Quiet(s, s', t)
    ensures Encoder(s')
  {
  }

  lemma QuietKeepsResponses(s: State, s': State, t: Id)
    requires Responses(s) && CallMove(s, s', t) && Quiet(s, s', t)
    ensures Responses(s')
  {
    forall f | f in s'.polls && f in s'.resp
      ensures RespFits(f, s'.polls[f], s'.resp[f], s'.calls)
    {
      assert RespFits(f, s.polls[f], s.resp[f], s.calls);
    }
  }

  lemma QuietKeepsWire(s: State, s': State, t: Id)
    requires Wire(s.wire, s.calls, s.conn)
    requires CallMove(s, s', t) && Quiet(s, s', t)
    ensures Wire(s'.wire, s'.calls, s'.conn)
  {
    forall i | 0 <= i < |s'.wire|
      ensures MayBeSent(s'.calls, s'.wire[i].1)
    {
      assert MayBeSent(s.calls, s.wire[i].1);
    }
  }

  lemma QuietKeepsHanded(s: State, s': State, t: Id)
    requires Handed(s.log, s.wire, s.calls) && CallMove(s, s', t) && Quiet(s, s', t)
    ensures Handed(s'.log, s'.wire, s'.calls)
  {
  }

  lemma QuietKeepsLedger(s: State, s': State, step: CallStep)
    requires Inv(s) && Ledger(s) && CallNext(s, s', step) && !Noisy(step)
    ensures Ledger(s')
  {
    QuietMoves(s, s', step);
    QuietKeepsEncoder(s, s', step.t);
    QuietKeepsResponses(s, s', step.t);
    QuietKeepsWire(s, s', step.t);
    QuietKeepsHanded(s, s', step.t);
    assert s'.p.status == s.p.status;
  }

  // ---------- call steps that hand over, write or answer ----------

  /** What the call held before still stands where it did for the other calls. */
  lemma OthersKeepResponses(s: State, s': State, t: Id, f: Id)
    requires Inv(s) && Responses(s) && t in s'.calls && s'.calls == s.calls[t := s'.calls[t]]
    requires s'.polls.Keys == s.polls.Keys && s'.resp.Keys == s.resp.Keys && f in s.polls
    requires forall g :: g in s.polls && g != f ==> s'.polls[g] == s.polls[g] && s'.resp[g] == s.resp[g]
    requires HoldsAny(s'.calls, t, Writing) ==> s'.calls[t].poll == f
    requires RespFits(f, s'.polls[f], s'.resp[f], s'.calls)
    ensures Responses(s')
  {
    forall g | g in s'.polls && g in s'.resp
      ensures RespFits(g, s'.polls[g], s'.resp[g], s'.calls)
    {
      assert RespFits(g, s.polls[g], s.resp[g], s.calls);
    }
  }

  lemma MeetKeepsLedger(s: State, s': State, t: Id, f: Id)
    requires Inv(s) && Ledger(s) && DoMeet(s, s', t, f)
    ensures Ledger(s')
  {
    if s.p.status == P.Paused {
      PausedIsEmpty(s);
      assert false;
    }
    var side := s.calls[t].side;
    AppendOrdered(s.log, false, s.conn, HandOver(Old, side, t), false, s.conn);
    assert RespFits(f, s.polls[f], s.resp[f], s.calls);
    OthersKeepResponses(s, s', t, f);
    AppendHanded(s.log, s.wire, s.calls, Old, side, t, Out(side, f, Got));
    SameWire(s.wire, s.calls, s.conn, t, Out(side, f, Got));
  }

  lemma AppendHanded(log: seq<Event>, wire: seq<(Conn, Id)>, calls: map<Id, Call>,
          conn: Conn, side: Side, t: Id, ph: Call)
    requires Handed(log, wire, calls) && t in calls && !HandedOver(calls[t])
    requires ph.side == side && if conn.Old? then ph.Out? else ph.OutNew? && ph.attempt == conn.attempt
    ensures Handed(log + [HandOver(conn, side, t)], wire, calls[t := ph])
  {
    var e := HandOver(conn, side, t);
    assert forall x :: x in log + [e] <==> x in log || x == e;
  }

  lemma SameHanded(log: seq<Event>, wire: seq<(Conn, Id)>, calls: map<Id, Call>, t: Id, ph: Call)
    requires Handed(log, wire, calls) && t in calls && HandedOver(ph) && !ph.OutNew? && ph.side == calls[t].side
    requires ph.Out? && ph.side.Writing? ==> HoldsAny(calls, t, Writing)
    ensures Handed(log, wire, calls[t := ph])
  {
  }

  lemma WrittenHanded(log: seq<Event>, wire: seq<(Conn, Id)>, calls: map<Id, Call>, c: Conn, t: Id)
    requires Handed(log, wire, calls) && HandOver(c, Writing, t) in log
    ensures Handed(log, wire + [(c, t)], calls)
  {
  }

  /** A call that wrote nothing moves on without writing. */
  lemma SameWire(wire: seq<(Conn, Id)>, calls: map<Id, Call>, conn: Conn, t: Id, ph: Call)
    requires Wire(wire, calls, conn) && t in calls && !MayBeSent(calls, t)
    requires !HasWritten(ph) && ph != Ended(Writing, true)
    ensures Wire(wire, calls[t := ph], conn)
  {
    forall i | 0 <= i < |wire| ensures MayBeSent(calls[t := ph], wire[i].1) {
      assert MayBeSent(calls, wire[i].1);
    }
  }

  lemma BeginKeepsEncoder(s: State, s': State, t: Id)
    requires Inv(s) && DoCallBegin(s, s', t)
    ensures Encoder(s')
  {
    forall u | HoldsAny(s'.calls, u, Writing) && s'.calls[u].stage != Got
      ensures u == t
    {
      OneOut(s, t, u);
    }
  }

  lemma BeginKeepsLedger(s: State, s': State, t: Id)
    requires Inv(s) && Ledger(s) && DoCallBegin(s, s', t)
    ensures Ledger(s')
  {
    var f := s.calls[t].poll;
    assert Holds(s.calls, t, f, Writing);
    assert RespFits(f, s.polls[f], s.resp[f], s.calls);
    OthersKeepResponses(s, s', t, f);
    SameWire(s.wire, s.calls, s.conn, t, s'.calls[t]);
    SameHanded(s.log, s.wire, s.calls, t, s'.calls[t]);
    BeginKeepsEncoder(s, s', t);
  }

  /** A whole packet goes to the end of the wire. */
  lemma AppendWire(wire: seq<(Conn, Id)>, calls: map<Id, Call>, conn: Conn, c: Conn, t: Id, ph: Call)
    requires Wire(wire, calls, conn) && t in calls && !MayBeSent(calls, t) && c == conn
    requires if c.Old? then HasWritten(ph) else ph == Ended(Writing, true)
    ensures Wire(wire + [(c, t)], calls[t := ph], conn)
  {
    var wire' := wire + [(c, t)];
    assert forall x :: x in wire' <==> x in wire || x == (c, t);
    forall i | 0 <= i < |wire'| ensures MayBeSent(calls[t := ph], wire'[i].1) {
      assert i < |wire| ==> MayBeSent(calls, wire[i].1);
    }
    forall u | u in calls[t := ph] && calls[t := ph][u] == Ended(Writing, true) ensures OnWire(wire', u) {
      if u == t {
        assert (c, t) in wire';
      } else {
        var cc :| (cc, u) in wire;
        assert (cc, u) in wire';
      }
    }
  }

  lemma AppendPlaced(resp: map<Id, seq<Item>>, wire: seq<(Conn, Id)>, f: Id, t: Id)
    requires Placed(resp, wire) && f in resp && (Old, t) !in wire
    ensures Placed(resp[f := resp[f] + [PacketOf(t)]], wire + [(Old, t)])
  {
    var resp' := resp[f := resp[f] + [PacketOf(t)]];
    forall g, u: Id
      ensures Carries(resp', g, u) <==> Carries(resp, g, u) || (g == f && u == t)
    {
    }
    forall u: Id | (Old, u) in wire + [(Old, t)]
      ensures exists g :: Carries(resp', g, u)
    {
      if (Old, u) in wire {
        var g :| Carries(resp, g, u);
        assert Carries(resp', g, u);
      } else {
        assert Carries(resp', f, u);
      }
    }
  }

  lemma SamePlaces(resp: map<Id, seq<Item>>, wire: seq<(Conn, Id)>, f: Id, t: Id)
    requires Placed(resp, wire) && f in resp
    ensures Placed(resp[f := resp[f] + [PartOf(t)]], wire)
  {
    var resp' := resp[f := resp[f] + [PartOf(t)]];
    forall g, u: Id ensures Carries(resp', g, u) <==> Carries(resp, g, u) {}
    forall u: Id | (Old, u) in wire ensures exists g :: Carries(resp', g, u) {
      var g :| Carries(resp, g, u);
      assert Carries(resp', g, u);
    }
  }

  /** Nobody but its own writer can have put a started writer's packet on the wire. */
  lemma StartedIsNotOnWire(s: State, t: Id, conn: Conn)
    requires Ledger(s) && t in s.calls && !MayBeSent(s.calls, t)
    ensures (conn, t) !in s.wire
  {
  }

  lemma WriteKeepsBooks(s: State, s': State, t: Id, ok: bool)
    requires Inv(s) && Ledger(s) && DoCallWrite(s, s', t, ok)
    ensures s.rawWriter == s.calls[t].poll && s.frameOwner == t && s.conn.Old?
    ensures Placed(s'.resp, s'.wire) && Wire(s'.wire, s'.calls, s'.conn)
  {
    OutIsOld(s, t);
    StartedIsNotOnWire(s, t, Old);
    if ok {
      AppendWire(s.wire, s.calls, s.conn, Old, t, s'.calls[t]);
      AppendPlaced(s.resp, s.wire, s.rawWriter, t);
    } else {
      SameWire(s.wire, s.calls, s.conn, t, s'.calls[t]);
      SamePlaces(s.resp, s.wire, s.rawWriter, t);
    }
  }

  lemma WriteKeepsResponses(s: State, s': State, t: Id, ok: bool)
    requires Inv(s) && Encoder(s) && Responses(s) && DoCallWrite(s, s', t, ok)
    ensures Responses(s') && Encoder(s')
  {
    var f := s.calls[t].poll;
    assert Holds(s.calls, t, f, Writing);
    assert RespFits(f, s.polls[f], s.resp[f], s.calls);
    OthersKeepResponses(s, s', t, f);
  }

  lemma WriteKeepsLedger(s: State, s': State, t: Id, ok: bool)
    requires Inv(s) && Ledger(s) && DoCallWrite(s, s', t, ok)
    ensures Ledger(s')
  {
    WriteKeepsBooks(s, s', t, ok);
    WriteKeepsResponses(s, s', t, ok);
    SameHanded(s.log, s.wire, s.calls, t, s'.calls[t]);
    WrittenHanded(s.log, s.wire, s'.calls, Old, t);
  }

  /** Only the old connection has handed out what is still out of the payload. */
  lemma OutIsOld(s: State, t: Id)
    requires Inv(s) && HoldsAny(s.calls, t, Writing)
    ensures s.conn.Old? && s.p.status != P.Paused
  {
    if s.p.status == P.Paused {
      PausedIsEmpty(s);
      assert false;
    }
  }

  lemma AnswerKeepsResponses(s: State, s': State, t: Id, f: Id, ok: bool)
    requires Inv(s) && Encoder(s) && Responses(s) && DoAnswer(s, s', t, f, ok)
    ensures Responses(s') && Encoder(s')
    ensures s'.calls[t] == Ended(Writing, true) ==> HasWritten(s.calls[t])
  {
    if s.calls[t].side.Writing? {
      AnswerIsPartners(s, t, f);
      assert Holds(s.calls, t, f, Writing);
    }
    assert RespFits(f, s.polls[f], s.resp[f], s.calls);
    OthersKeepResponses(s, s', t, f);
  }

  /** A call that ends well has written; one that ends may have. */
  lemma EndKeepsWire(wire: seq<(Conn, Id)>, calls: map<Id, Call>, conn: Conn, t: Id, ph: Call)
    requires Wire(wire, calls, conn) && t in calls && ph.Ended? && ph.side == calls[t].side
    requires ph == Ended(Writing, true) ==> HasWritten(calls[t])
    ensures Wire(wire, calls[t := ph], conn)
  {
    forall i | 0 <= i < |wire| ensures MayBeSent(calls[t := ph], wire[i].1) {
      assert MayBeSent(calls, wire[i].1);
    }
  }

  lemma AnswerKeepsLedger(s: State, s': State, t: Id, f: Id, ok: bool)
    requires Inv(s) && Ledger(s) && DoAnswer(s, s', t, f, ok)
    ensures Ledger(s')
  {
    AnswerKeepsResponses(s, s', t, f, ok);
    EndKeepsWire(s.wire, s.calls, s.conn, t, s'.calls[t]);
    SameHanded(s.log, s.wire, s.calls, t, s'.calls[t]);
  }

  lemma NewOpenKeepsLedger(s: State, s': State, t: Id)
    requires Inv(s) && Ledger(s) && DoNewOpen(s, s', t)
    ensures Ledger(s')
  {
    var (side, conn) := (s.calls[t].side, s.calls[t].conn);
    assert s'.calls[t].attempt == conn.attempt;
    AppendOrdered(s.log, s.p.status == P.Paused, s.conn, HandOver(conn, side, t), s.p.status == P.Paused, s.conn);
    AppendHanded(s.log, s.wire, s.calls, conn, side, t, s'.calls[t]);
    SameWire(s.wire, s.calls, s.conn, t, s'.calls[t]);
    NoOutKeepsResponses(s, s', t);
  }

  lemma NoOutKeepsResponses(s: State, s': State, t: Id)
    requires Responses(s) && t in s.calls && t in s'.calls && !s.calls[t].Out? && !s'.calls[t].Out?
    requires s'.calls == s.calls[t := s'.calls[t]] && s'.polls == s.polls && s'.resp == s.resp
    ensures Responses(s')
  {
    forall f | f in s'.polls && f in s'.resp ensures RespFits(f, s'.polls[f], s'.resp[f], s'.calls) {
      assert RespFits(f, s.polls[f], s.resp[f], s.calls);
    }
  }

  lemma NewCloseKeepsBooks(s: State, s': State, t: Id, ok: bool)
    requires Inv(s) && Ledger(s) && DoNewClose(s, s', t, ok)
    ensures Placed(s'.resp, s'.wire) && Wire(s'.wire, s'.calls, s'.conn)
  {
    var (side, attempt) := (s.calls[t].side, s.calls[t].attempt);
    if ok && side.Writing? {
      AppendWire(s.wire, s.calls, s.conn, New(attempt), t, s'.calls[t]);
      assert forall u: Id :: (Old, u) in s'.wire <==> (Old, u) in s.wire;
    } else {
      SameWire(s.wire, s.calls, s.conn, t, s'.calls[t]);
    }
  }

  lemma NewCloseKeepsLedger(s: State, s': State, t: Id, ok: bool)
    requires Inv(s) && Ledger(s) && DoNewClose(s, s', t, ok)
    ensures Ledger(s')
  {
    NoOutKeepsResponses(s, s', t);
    NewCloseKeepsBooks(s, s', t, ok);
    SameHanded(s.log, s.wire, s.calls, t, s'.calls[t]);
    if ok && s.calls[t].side.Writing? {
      WrittenHanded(s.log, s.wire, s'.calls, New(s.calls[t].attempt), t);
    }
  }

  lemma NoisyKeepsLedger(s: State, s': State, step: CallStep)
    requires Inv(s) && Ledger(s) && CallNext(s, s', step) && Noisy(step)
    ensures Ledger(s')
  {
    if step.Meet? {
      MeetKeepsLedger(s, s', step.t, step.f);
    } else if step.CallBegin? {
      BeginKeepsLedger(s, s', step.t);
    } else if step.CallWrite? {
      WriteKeepsLedger(s, s', step.t, step.ok);
    } else if step.Answer? {
      AnswerKeepsLedger(s, s', step.t, step.f, step.ok);
    } else if step.NewOpen? {
      NewOpenKeepsLedger(s, s', step.t);
    } else {
      NewCloseKeepsLedger(s, s', step.t, step.ok);
    }
  }

  lemma CallKeepsLedger(s: State, s': State, step: CallStep)
    requires Inv(s) && Ledger(s) && CallNext(s, s', step)
    ensures Ledger(s')
  {
    if Noisy(step) {
      NoisyKeepsLedger(s, s', step);
    } else {
      QuietKeepsLedger(s, s', step);
    }
  }

  // ---------- upgrade steps ----------

  /** What an upgrade step appends to the log, if anything. */
  ghost predicate Logs(s: State, s': State) {
    || (s'.log == s.log && s'.conn == s.conn && s'.p.status != P.Paused && s.p.status != P.Paused)
    || (s'.log == s.log && s'.conn == s.conn && s'.p == s.p)
    || (s'.log == s.log + [PauseReturned] && s'.conn == s.conn && s.conn.Old? && s'.p.status == P.Paused)
    || (s'.log == s.log + [Resumed] && s'.conn == s.conn && s.conn.Old? && s'.p.status != P.Paused)
    || (s'.conn.New? && s'.log == s.log + [SwappedTo(s'.conn.attempt)] && s.conn.Old?
        && s'.p == s.p && s.p.status == P.Paused)
  }

  lemma PauseLogs(s: State, s': State)
    requires BarrierPhase(s.p, s.upgrader, s.conn) && DoPause(s, s')
    ensures Logs(s, s')
  {
    PauseMoves(s, s');
  }

  lemma WakeLogs(s: State, s': State)
    requires BarrierPhase(s.p, s.upgrader, s.conn) && DoWake(s, s')
    ensures Logs(s, s')
  {
    WakeMoves(s, s');
  }

  lemma UpgradeLogs(s: State, s': State, step: UpgradeStep)
    requires BarrierPhase(s.p, s.upgrader, s.conn) && UpgradeNext(s, s', step)
    ensures Logs(s, s')
  {
    match step
    case Start =>
    case Abort =>
    case Pause => PauseLogs(s, s');
    case Wake => WakeLogs(s, s');
    case Fail => FailMoves(s, s');
    case Swap =>
    case CloseOld =>
    case CloseSession =>
  }

  lemma LogsKeepOrder(s: State, s': State)
    requires Ordered(s.log, s.p.status == P.Paused, s.conn) && Logs(s, s')
    ensures Ordered(s'.log, s'.p.status == P.Paused, s'.conn)
  {
    if s'.log != s.log {
      var e := s'.log[|s.log|];
      assert s'.log == s.log + [e];
      AppendOrdered(s.log, s.p.status == P.Paused, s.conn, e, s'.p.status == P.Paused, s'.conn);
    }
  }

  lemma LogsKeepHanded(s: State, s': State)
    requires Handed(s.log, s.wire, s.calls) && Logs(s, s') && s'.calls == s.calls && s'.wire == s.wire
    ensures Handed(s'.log, s'.wire, s'.calls)
  {
    assert forall x :: x in s.log ==> x in s'.log;
  }

  lemma InstallKeepsWire(wire: seq<(Conn, Id)>, calls: map<Id, Call>, conn: Conn, conn': Conn)
    requires Wire(wire, calls, conn) && (conn' == conn || conn.Old?)
    ensures Wire(wire, calls, conn')
  {
  }

  lemma UpgradeKeepsLedger(s: State, s': State, step: UpgradeStep)
    requires Inv(s) && Ledger(s) && UpgradeNext(s, s', step)
    ensures Ledger(s')
  {
    UpgradeMoves(s, s', step);
    UpgradeLogs(s, s', step);
    EffectKeepsLedger(s, s');
  }

  lemma EffectKeepsLedger(s: State, s': State)
    requires Ledger(s) && UpgradeEffect(s, s') && Logs(s, s')
    ensures Ledger(s')
  {
    LogsKeepOrder(s, s');
    LogsKeepHanded(s, s');
    InstallKeepsWire(s.wire, s.calls, s.conn, s'.conn);
    assert Responses(s');
    assert Encoder(s');
  }

  lemma ClockKeepsLedger(s: State, s': State, step: ClockStep)
    requires Ledger(s) && ClockNext(s, s', step)
    ensures Ledger(s')
  {
    assert Responses(s') && Encoder(s');
  }

  lemma NextKeepsLedger(s: State, s': State, step: Step)
    requires Inv(s) && Ledger(s) && Next(s, s', step) && !Abandons(s, step)
    ensures Inv(s') && Ledger(s')
  {
    NextKeepsInv(s, s', step);
    match step
    case OfPoll(x) => PollKeepsLedger(s, s', x);
    case OfCall(x) => CallKeepsLedger(s, s', x);
    case OfUpgrade(x) => UpgradeKeepsLedger(s, s', x);
    case OfClock(x) => ClockKeepsLedger(s, s', x);
  }

  // ---------- the old wire follows the hand-overs ----------

  ghost predicate OldWriter(e: Event) { e.HandOver? && e.conn.Old? && e.side.Writing? }

  /** A writer that is still out was the last to be handed over. */
  ghost predicate LastOut(log: seq<Event>, calls: map<Id, Call>) {
    forall i, j :: 0 <= i < j < |log| && OldWriter(log[i]) && OldWriter(log[j]) ==> GoneBy(calls, log[i].call)
  }

  ghost predicate GoneBy(calls: map<Id, Call>, t: Id) {
    t in calls && HandedOver(calls[t]) && !HoldsAny(calls, t, Writing)
  }

  ghost predicate Earlier(log: seq<Event>, x: (Conn, Id), y: (Conn, Id)) {
    forall a, b :: (0 <= a < |log| && 0 <= b < |log|
                    && log[a] == HandOver(x.0, Writing, x.1) && log[b] == HandOver(y.0, Writing, y.1)) ==> a < b
  }

  /** Packets are on the old wire in the order their calls were handed over. */
  ghost predicate WireFollows(log: seq<Event>, wire: seq<(Conn, Id)>) {
    forall i, j :: 0 <= i < j < |wire| && wire[j].0.Old? ==> Earlier(log, wire[i], wire[j])
  }

  ghost predicate InOrder(log: seq<Event>, wire: seq<(Conn, Id)>, calls: map<Id, Call>) {
    LastOut(log, calls) && WireFollows(log, wire)
  }

  lemma CallKeepsOrder(log: seq<Event>, wire: seq<(Conn, Id)>, calls: map<Id, Call>, t: Id, ph: Call)
    requires InOrder(log, wire, calls) && (ph.Out? && ph.side.Writing? ==> HoldsAny(calls, t, Writing))
    requires t in calls && HandedOver(calls[t]) ==> HandedOver(ph)
    ensures InOrder(log, wire, calls[t := ph])
  {
    forall i, j | 0 <= i < j < |log| && OldWriter(log[i]) && OldWriter(log[j])
      ensures GoneBy(calls[t := ph], log[i].call)
    {
      assert GoneBy(calls, log[i].call);
    }
  }

  /** An event of a call that is not on the wire leaves the wire in order. */
  lemma AppendKeepsFollowing(log: seq<Event>, wire: seq<(Conn, Id)>, e: Event)
    requires WireFollows(log, wire)
    requires e.HandOver? ==> forall i :: 0 <= i < |wire| ==> wire[i].1 != e.call
    ensures WireFollows(log + [e], wire)
  {
    forall i, j | 0 <= i < j < |wire| && wire[j].0.Old?
      ensures Earlier(log + [e], wire[i], wire[j])
    {
      assert Earlier(log, wire[i], wire[j]);
    }
  }

  /** With no other writer out, the next one may be handed over. */
  lemma HandOverKeepsLastOut(log: seq<Event>, calls: map<Id, Call>, e: Event)
    requires LastOut(log, calls)
    requires OldWriter(e) ==> forall i :: 0 <= i < |log| && OldWriter(log[i]) ==> GoneBy(calls, log[i].call)
    ensures LastOut(log + [e], calls)
  {
  }

  lemma OthersAreGone(s: State, t: Id, i: nat)
    requires Inv(s) && Handed(s.log, s.wire, s.calls) && t in s.calls && s.calls[t].Out? && s.calls[t].side.Writing?
    requires i < |s.log| && OldWriter(s.log[i]) && s.log[i].call != t
    ensures GoneBy(s.calls, s.log[i].call)
  {
    var u := s.log[i].call;
    assert Served(s.calls, u, Writing, Old);
    if s.calls[u].Out? {
      OneOut(s, t, u);
    }
  }

  lemma MeetKeepsOrder(s: State, s': State, t: Id, f: Id)
    requires Inv(s) && InOrder(s.log, s.wire, s.calls) && DoMeet(s, s', t, f)
    requires Wire(s.wire, s.calls, s.conn) && Handed(s.log, s.wire, s.calls)
    ensures InOrder(s'.log, s'.wire, s'.calls)
  {
    MeetKeepsInv(s, s', t, f);
    AppendHanded(s.log, s.wire, s.calls, Old, s.calls[t].side, t, s'.calls[t]);
    var e := HandOver(Old, s.calls[t].side, t);
    forall i, j | 0 <= i < j < |s.log| && OldWriter(s.log[i]) && OldWriter(s.log[j])
      ensures GoneBy(s'.calls, s.log[i].call)
    {
      assert GoneBy(s.calls, s.log[i].call);
    }
    forall i | OldWriter(e) && 0 <= i < |s.log| && OldWriter(s.log[i])
      ensures GoneBy(s'.calls, s.log[i].call)
    {
      assert s'.log[i] == s.log[i] && s'.log[|s.log|] == e;
      OthersAreGone(s', t, i);
    }
    HandOverKeepsLastOut(s.log, s'.calls, e);
    NotOnWire(s.wire, s.calls, s.conn, t);
    AppendKeepsFollowing(s.log, s.wire, e);
  }

  lemma NotOnWire(wire: seq<(Conn, Id)>, calls: map<Id, Call>, conn: Conn, t: Id)
    requires Wire(wire, calls, conn) && !MayBeSent(calls, t)
    ensures forall i :: 0 <= i < |wire| ==> wire[i].1 != t
  {
  }

  /** The last writer handed over appends its packet. */
  lemma WriteKeepsFollowing(log: seq<Event>, wire: seq<(Conn, Id)>, calls: map<Id, Call>, t: Id)
    requires LastOut(log, calls) && WireFollows(log, wire) && HoldsAny(calls, t, Writing)
    requires forall i :: 0 <= i < |wire| ==> wire[i].0.Old? && wire[i].1 != t
    ensures WireFollows(log, wire + [(Old, t)])
  {
    var wire' := wire + [(Old, t)];
    forall i, j | 0 <= i < j < |wire'| && wire'[j].0.Old?
      ensures Earlier(log, wire'[i], wire'[j])
    {
      if j < |wire| {
        assert Earlier(log, wire[i], wire[j]);
      } else {
        assert forall b :: 0 <= b < |log| && log[b] == HandOver(Old, Writing, t) ==> OldWriter(log[b]);
      }
    }
  }

  lemma WriteKeepsOrder(s: State, s': State, t: Id, ok: bool)
    requires InOrder(s.log, s.wire, s.calls) && DoCallWrite(s, s', t, ok)
    requires s.conn.Old? && s.frameOwner == t && Wire(s.wire, s.calls, s.conn)
    ensures InOrder(s'.log, s'.wire, s'.calls)
  {
    NotOnWire(s.wire, s.calls, s.conn, t);
    WriteKeepsFollowing(s.log, s.wire, s.calls, t);
    CallKeepsOrder(s.log, s'.wire, s.calls, t, s'.calls[t]);
  }

  lemma NewKeepsOrder(s: State, s': State, t: Id)
    requires Inv(s) && Ledger(s) && InOrder(s.log, s.wire, s.calls)
    requires DoNewOpen(s, s', t) || exists ok :: DoNewClose(s, s', t, ok)
    ensures InOrder(s'.log, s'.wire, s'.calls)
  {
    CallKeepsOrder(s.log, s.wire, s.calls, t, s'.calls[t]);
    if s'.log != s.log {
      NotOnWire(s.wire, s.calls, s.conn, t);
      var e := HandOver(s.calls[t].conn, s.calls[t].side, t);
      HandOverKeepsLastOut(s.log, s'.calls, e);
      AppendKeepsFollowing(s.log, s.wire, e);
    }
  }

  lemma NoisyKeepsOrder(s: State, s': State, step: CallStep)
    requires Inv(s) && Ledger(s) && InOrder(s.log, s.wire, s.calls) && CallNext(s, s', step) && Noisy(step)
    ensures InOrder(s'.log, s'.wire, s'.calls)
  {
    if step.Meet? {
      MeetKeepsOrder(s, s', step.t, step.f);
    } else if step.CallWrite? {
      WriteKeepsBooks(s, s', step.t, step.ok);
      WriteKeepsOrder(s, s', step.t, step.ok);
    } else if step.NewOpen? || step.NewClose? {
      NewKeepsOrder(s, s', step.t);
    } else {
      CallKeepsOrder(s.log, s.wire, s.calls, step.t, s'.calls[step.t]);
    }
  }

  lemma UpgradeKeepsOrder(s: State, s': State, step: UpgradeStep)
    requires Inv(s) && InOrder(s.log, s.wire, s.calls) && UpgradeNext(s, s', step)
    ensures InOrder(s'.log, s'.wire, s'.calls)
  {
    UpgradeMoves(s, s', step);
    UpgradeLogs(s, s', step);
    if s'.log != s.log {
      var e := s'.log[|s.log|];
      assert s'.log == s.log + [e] && !e.HandOver?;
      AppendKeepsFollowing(s.log, s.wire, e);
      HandOverKeepsLastOut(s.log, s.calls, e);
    }
  }

  lemma PollKeepsOrder(s: State, s': State, step: PollStep)
    requires InOrder(s.log, s.wire, s.calls) && PollNext(s, s', step)
    ensures InOrder(s'.log, s'.wire, s'.calls)
  {
    PollMoves(s, s', step);
  }

  lemma CallKeepsInOrder(s: State, s': State, step: CallStep)
    requires Inv(s) && Ledger(s) && InOrder(s.log, s.wire, s.calls) && CallNext(s, s', step)
    ensures InOrder(s'.log, s'.wire, s'.calls)
  {
    if Noisy(step) {
      NoisyKeepsOrder(s, s', step);
    } else {
      QuietKeepsOrder(s, s', step);
    }
  }

  lemma QuietKeepsOrder(s: State, s': State, step: CallStep)
    requires InOrder(s.log, s.wire, s.calls) && CallNext(s, s', step) && !Noisy(step)
    ensures InOrder(s'.log, s'.wire, s'.calls)
  {
    QuietMoves(s, s', step);
    CallKeepsOrder(s.log, s.wire, s.calls, step.t, s'.calls[step.t]);
  }

  lemma ClockKeepsOrder(s: State, s': State, step: ClockStep)
    requires InOrder(s.log, s.wire, s.calls) && ClockNext(s, s', step)
    ensures InOrder(s'.log, s'.wire, s'.calls)
  {
  }

  lemma NextKeepsOrder(s: State, s': State, step: Step)
    requires Inv(s) && Ledger(s) && InOrder(s.log, s.wire, s.calls) && Next(s, s', step)
    ensures InOrder(s'.log, s'.wire, s'.calls)
  {
    match step
    case OfPoll(x) => PollKeepsOrder(s, s', x);
    case OfCall(x) => CallKeepsInOrder(s, s', x);
    case OfUpgrade(x) => UpgradeKeepsOrder(s, s', x);
    case OfClock(x) => ClockKeepsOrder(s, s', x);
  }

  // ---------- the log in every run ----------

  /** What needs no assumption about deadlines. */
  ghost predicate LogKept(s: State) {
    Core(s) && HandedOnce(s.log, s.calls) && Ordered(s.log, s.p.status == P.Paused, s.conn)
  }

  lemma CallKeepsOnce(log: seq<Event>, calls: map<Id, Call>, t: Id, ph: Call)
    requires HandedOnce(log, calls)
    requires t in calls ==> ph.side == calls[t].side
    requires t in calls && HandedOver(calls[t]) ==> HandedOver(ph) && (ph.OutNew? ==> ph == calls[t])
    ensures HandedOnce(log, calls[t := ph])
  {
  }

  lemma HandOverKeepsOnce(log: seq<Event>, calls: map<Id, Call>, e: Event, ph: Call)
    requires HandedOnce(log, calls) && e.HandOver? && e.call in calls && !HandedOver(calls[e.call])
    requires HandedOver(ph) && ph.side == e.side && (e.conn.Old? ==> !ph.OutNew?)
    ensures HandedOnce(log + [e], calls[e.call := ph])
  {
  }

  lemma MeetKeepsLog(s: State, s': State, t: Id, f: Id)
    requires LogKept(s) && DoMeet(s, s', t, f)
    ensures LogKept(s')
  {
    MeetKeepsCore(s, s', t, f);
    if s.p.status == P.Paused {
      PausedHasNoTokens(s);
      assert false;
    }
    var e := HandOver(Old, s.calls[t].side, t);
    AppendOrdered(s.log, false, s.conn, e, false, s.conn);
    HandOverKeepsOnce(s.log, s.calls, e, s'.calls[t]);
  }

  lemma NewOpenKeepsLog(s: State, s': State, t: Id)
    requires LogKept(s) && Core(s') && DoNewOpen(s, s', t)
    ensures LogKept(s')
  {
    var e := HandOver(s.calls[t].conn, s.calls[t].side, t);
    AppendOrdered(s.log, s.p.status == P.Paused, s.conn, e, s.p.status == P.Paused, s.conn);
    HandOverKeepsOnce(s.log, s.calls, e, s'.calls[t]);
  }

  /** The other call steps leave the log alone. */
  lemma NoisyKeepsPlace(s: State, s': State, step: CallStep)
    requires CallNext(s, s', step) && Noisy(step) && !step.Meet? && !step.NewOpen?
    ensures s'.log == s.log && step.t in s.calls && step.t in s'.calls
    ensures HandedOver(s'.calls[step.t]) && !s'.calls[step.t].OutNew? && s'.calls[step.t].side == s.calls[step.t].side
  {
  }

  lemma CallKeepsPlace(s: State, s': State, step: CallStep)
    requires CallNext(s, s', step) && !step.Meet? && !step.NewOpen?
    ensures s'.log == s.log && step.t in s'.calls
    ensures step.t in s.calls ==>
              && s'.calls[step.t].side == s.calls[step.t].side
              && (HandedOver(s.calls[step.t]) ==>
                    HandedOver(s'.calls[step.t]) && (s'.calls[step.t].OutNew? ==> s'.calls[step.t] == s.calls[step.t]))
  {
    if Noisy(step) {
      NoisyKeepsPlace(s, s', step);
    } else {
      QuietCallMoves(s, s', step);
    }
  }

  lemma CallKeepsLog(s: State, s': State, step: CallStep)
    requires LogKept(s) && CallNext(s, s', step)
    ensures LogKept(s')
  {
    CallKeepsCore(s, s', step);
    if step.Meet? {
      MeetKeepsLog(s, s', step.t, step.f);
    } else if step.NewOpen? {
      NewOpenKeepsLog(s, s', step.t);
    } else {
      CallMoves(s, s', step);
      CallKeepsPlace(s, s', step);
      CallKeepsOnce(s.log, s.calls, step.t, s'.calls[step.t]);
      assert s'.p.status == s.p.status;
    }
  }

  lemma PollKeepsLog(s: State, s': State, step: PollStep)
    requires LogKept(s) && PollNext(s, s', step)
    ensures LogKept(s')
  {
    PollKeepsCore(s, s', step);
    PollMoves(s, s', step);
    assert s'.p.status == s.p.status;
  }

  lemma UpgradeKeepsLog(s: State, s': State, step: UpgradeStep)
    requires LogKept(s) && UpgradeNext(s, s', step)
    ensures LogKept(s')
  {
    UpgradeKeepsCore(s, s', step);
    UpgradeMoves(s, s', step);
    UpgradeLogs(s, s', step);
    LogsKeepOrder(s, s');
  }

  lemma NextKeepsLog(s: State, s': State, step: Step)
    requires LogKept(s) && Next(s, s', step)
    ensures LogKept(s')
  {
    match step
    case OfPoll(x) => PollKeepsLog(s, s', x);
    case OfCall(x) => CallKeepsLog(s, s', x);
    case OfUpgrade(x) => UpgradeKeepsLog(s, s', x);
    case OfClock(x) => ClockKeepsCore(s, s', x);
  }
}
