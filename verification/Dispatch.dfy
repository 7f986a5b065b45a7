/** The session's read loop (engineio/session/session.go, `NextReader`): it answers pings, drops what it does not
    know and returns messages. */
module Dispatch {
  import opened Bytes
  import opened PayloadCodec

  /** What happens when a ping is to be answered: the writer may be refused, the echo may break off, and setting
      the next deadline may fail. */
  datatype Echo = Sent | NoWriter | BrokenOff(at: nat) | NoDeadline

  /** A packet of the connection, with what its echo meets should it be a ping. */
  datatype Arrival = Arrival(packet: Packet, echo: Echo)

  datatype Reply = Message(packet: Packet) | EndOfFile | Error

  function Pong(p: Packet): Packet { Packet(p.ft, PONG, p.data) }

  /** The loop goes on behind this packet. */
  predicate Skips(a: Arrival) {
    if a.packet.pt == PING then a.echo.Sent? else a.packet.pt != CLOSE && a.packet.pt != MESSAGE
  }

  /** How many packets one call reads over. */
  function Skipped(s: seq<Arrival>): (n: nat)
    ensures n <= |s|
    ensures forall i :: 0 <= i < n ==> Skips(s[i])
    ensures n < |s| ==> !Skips(s[n])
  {
    if s == [] || !Skips(s[0]) then 0 else 1 + Skipped(s[1..])
  }

  /** What a packet has written when the loop is through with it. */
  function Written(a: Arrival): seq<Packet> {
    if a.packet.pt != PING || a.echo.NoWriter? then []
    else if a.echo.BrokenOff? && a.echo.at < |a.packet.data| then [Pong(a.packet.(data := a.packet.data[..a.echo.at]))]
    else [Pong(a.packet)]
  }

  function AllWritten(s: seq<Arrival>): seq<Packet> {
    if s == [] then [] else Written(s[0]) + AllWritten(s[1..])
  }

  /** What one call makes of the packets before it. */
  function Outcome(s: seq<Arrival>): Reply {
    var n := Skipped(s);
    if n == |s| then Error
    else if s[n].packet.pt == MESSAGE then Message(s[n].packet)
    else if s[n].packet.pt == CLOSE then EndOfFile
    else Error
  }

  function Consumed(s: seq<Arrival>): (n: nat)
    ensures n <= |s|
  {
    if Skipped(s) < |s| then Skipped(s) + 1 else |s|
  }

  /** The readers one call leaves open: a message's for the caller, and that of a ping it got no writer for. */
  function LeftOpen(s: seq<Arrival>): nat {
    var n := Skipped(s);
    if n < |s| && (s[n].packet.pt == MESSAGE || (s[n].packet.pt == PING && s[n].echo.NoWriter?)) then 1 else 0
  }

  class Session {
    var incoming: seq<Arrival>     // what the connection still has to deliver; then it fails
    var outgoing: seq<Packet>
    var closed: bool
    var unclosed: nat              // readers handed out and not closed

    constructor (incoming: seq<Arrival>)
      ensures this.incoming == incoming && outgoing == [] && !closed && unclosed == 0
    {
      this.incoming, outgoing, closed, unclosed := incoming, [], false, 0;
    }

    method NextReader() returns (r: Reply)
      modifies this
      ensures r == Outcome(old(incoming))
      ensures incoming == old(incoming)[Consumed(old(incoming))..]
      ensures outgoing == old(outgoing) + AllWritten(old(incoming)[..Consumed(old(incoming))])
      ensures closed == (old(closed) || !r.Message?)
      ensures unclosed == old(unclosed) + LeftOpen(old(incoming))
    {
      ghost var k := 0;
      ghost var s := incoming;
      while true
        invariant k <= |s| && incoming == s[k..] && (forall i :: 0 <= i < k ==> Skips(s[i]))
        invariant outgoing == old(outgoing) + AllWritten(s[..k])
        invariant closed == old(closed) && unclosed == old(unclosed)
        decreases |incoming|
      {
        StopsAt(s, k);
        if incoming == [] {
          closed := true;
          return Error;
        }
        var a := incoming[0];
        incoming := incoming[1..];
        unclosed := unclosed + 1;
        WriteOneMore(old(outgoing), s, k);
        if a.packet.pt == PING {
          var ok := Answer(a);
          if !ok {
            closed := true;
            return Error;
          }
          if a.echo.NoDeadline? {
            closed := true;
            return Error;
          }
        } else if a.packet.pt == CLOSE {
          unclosed := unclosed - 1;
          closed := true;
          return EndOfFile;
        } else if a.packet.pt == MESSAGE {
          return Message(a.packet);
        } else {
          unclosed := unclosed - 1;
        }
        k := k + 1;
      }
    }

    /** Echoes a ping; its reader is closed unless there is no writer to echo into. */
    method Answer(a: Arrival) returns (ok: bool)
      requires a.packet.pt == PING && unclosed > 0
      modifies this`outgoing, this`unclosed
      ensures ok == (a.echo.Sent? || a.echo.NoDeadline?)
      ensures outgoing == old(outgoing) + Written(a)
      ensures unclosed == old(unclosed) - (if a.echo.NoWriter? then 0 else 1)
    {
      if a.echo.NoWriter? {
        return false;
      }
      var data := a.packet.data;
      if a.echo.BrokenOff? && a.echo.at < |data| {
        data := data[..a.echo.at];
      }
      outgoing := outgoing + [Packet(a.packet.ft, PONG, data)];
      unclosed := unclosed - 1;
      ok := !a.echo.BrokenOff?;
    }
  }

  /** A prefix of skipped packets ends where the first other one stands. */
  lemma {:induction false} StopsAt(s: seq<Arrival>, k: nat)
    requires k <= |s| && forall i :: 0 <= i < k ==> Skips(s[i])
    ensures k == |s| || !Skips(s[k]) ==> Skipped(s) == k
  {
    if k > 0 {
      StopsAt(s[1..], k - 1);
    }
  }

  lemma {:induction false} AppendWritten(s: seq<Arrival>, k: nat)
    requires k < |s|
    ensures AllWritten(s[..k + 1]) == AllWritten(s[..k]) + Written(s[k])
  {
    if k == 0 {
      assert s[..1] == [s[0]] && s[..0] == [];
    } else {
      AppendWritten(s[1..], k - 1);
      assert s[..k + 1][1..] == s[1..][..k] && s[..k][1..] == s[1..][..k - 1];
    }
  }

  lemma Assoc(x: seq<Packet>, y: seq<Packet>, z: seq<Packet>)
    ensures (x + y) + z == x + (y + z)
  {
  }

  /** The output `before`, what `k` packets wrote and what the next one writes. */
  lemma WriteOneMore(before: seq<Packet>, s: seq<Arrival>, k: nat)
    requires k < |s|
    ensures before + AllWritten(s[..k + 1]) == (before + AllWritten(s[..k])) + Written(s[k])
    ensures s[k].packet.pt != PING ==> AllWritten(s[..k + 1]) == AllWritten(s[..k])
  {
    AppendWritten(s, k);
    Assoc(before, AllWritten(s[..k]), Written(s[k]));
  }

  lemma Unfold(a: seq<Arrival>, b: seq<Arrival>)
    requires a != []
    ensures AllWritten(a + b) == Written(a[0]) + AllWritten(a[1..] + b)
  {
    assert (a + b)[0] == a[0] && (a + b)[1..] == a[1..] + b;
  }

  lemma {:induction false} SplitWritten(a: seq<Arrival>, b: seq<Arrival>)
    ensures AllWritten(a + b) == AllWritten(a) + AllWritten(b)
  {
    if a == [] {
      assert a + b == b;
    } else {
      SplitWritten(a[1..], b);
      Unfold(a, b);
      Assoc(Written(a[0]), AllWritten(a[1..]), AllWritten(b));
    }
  }

  // ---------- successive calls ----------

  /** The messages that successive calls return, up to the first call that returns none. */
  function Successive(s: seq<Arrival>): seq<Packet>
    decreases |s|
  {
    if Outcome(s).Message? then [Outcome(s).packet] + Successive(s[Consumed(s)..]) else []
  }

  /** How many packets those calls have consumed together. */
  function AllConsumed(s: seq<Arrival>): nat
    decreases |s|
  {
    if Outcome(s).Message? then Consumed(s) + AllConsumed(s[Consumed(s)..]) else Consumed(s)
  }

  /** The reply of the call that returned no message. */
  function LastReply(s: seq<Arrival>): Reply
    decreases |s|
  {
    if Outcome(s).Message? then LastReply(s[Consumed(s)..]) else Outcome(s)
  }

  /** A packet that ends the session: a CLOSE, or a ping whose echo fails. */
  predicate Ends(a: Arrival) {
    a.packet.pt == CLOSE || (a.packet.pt == PING && !a.echo.Sent?)
  }

  /** The number of packets before the first that ends the session. */
  function Life(s: seq<Arrival>): (n: nat)
    ensures n <= |s| && forall i :: 0 <= i < n ==> !Ends(s[i])
    ensures n < |s| ==> Ends(s[n])
  {
    if s == [] || Ends(s[0]) then 0 else 1 + Life(s[1..])
  }

  function Messages(s: seq<Arrival>): seq<Packet> {
    if s == [] then []
    else if s[0].packet.pt == MESSAGE then [s[0].packet] + Messages(s[1..])
    else Messages(s[1..])
  }

  /** One PONG for each PING. */
  function Pongs(s: seq<Arrival>): seq<Packet> {
    if s == [] then []
    else if s[0].packet.pt == PING then [Pong(s[0].packet)] + Pongs(s[1..])
    else Pongs(s[1..])
  }

  /** Dropping a skipped packet changes what one call does only by that packet. */
  lemma SkipOne(s: seq<Arrival>)
    requires s != [] && Skips(s[0])
    ensures Outcome(s) == Outcome(s[1..]) && Consumed(s) == Consumed(s[1..]) + 1
  {
  }

  /** Successive calls are a faithful filter: they return the MESSAGE packets before the end of the session, all
      of them and in order, and consume the packet that ends it. */
  lemma {:induction false} CallsFilter(s: seq<Arrival>)
    ensures Successive(s) == Messages(s[..Life(s)])
    ensures AllConsumed(s) == if Life(s) < |s| then Life(s) + 1 else |s|
    ensures LastReply(s) == if Life(s) < |s| && s[Life(s)].packet.pt == CLOSE then EndOfFile else Error
    decreases |s|
  {
    if s == [] || Ends(s[0]) {
      assert Skipped(s) == 0 && s[..0] == [];
      return;
    }
    var rest := s[1..];
    assert s[..Life(s)][1..] == rest[..Life(rest)];
    CallsFilter(rest);
    if s[0].packet.pt == MESSAGE {
      assert Skipped(s) == 0 && s[Consumed(s)..] == rest;
    } else {
      SkipOne(s);
      assert s[Consumed(s)..] == rest[Consumed(rest)..];
    }
  }

  /** While no echo fails, the packets written are one PONG per PING, with its frame type and data, in order. */
  lemma {:induction false} WrittenArePongs(s: seq<Arrival>)
    requires forall i :: 0 <= i < |s| ==> s[i].packet.pt == PING ==> s[i].echo.Sent?
    ensures AllWritten(s) == Pongs(s)
  {
    if s != [] {
      WrittenArePongs(s[1..]);
    }
  }

  /** What those calls write, one after the other. */
  function SuccessiveWritten(s: seq<Arrival>): seq<Packet>
    decreases |s|
  {
    AllWritten(s[..Consumed(s)]) + if Outcome(s).Message? then SuccessiveWritten(s[Consumed(s)..]) else []
  }

  lemma {:induction false} CallsWrite(s: seq<Arrival>)
    ensures AllConsumed(s) <= |s| && SuccessiveWritten(s) == AllWritten(s[..AllConsumed(s)])
    decreases |s|
  {
    if Outcome(s).Message? {
      var n, rest := Consumed(s), s[Consumed(s)..];
      CallsWrite(rest);
      assert s[..AllConsumed(s)] == s[..n] + rest[..AllConsumed(rest)];
      SplitWritten(s[..n], rest[..AllConsumed(rest)]);
    }
  }

  /** Over a stream whose echoes succeed: the calls return exactly the messages before the first CLOSE, and
      write one PONG per PING before it. */
  lemma ErrorFreeDispatch(s: seq<Arrival>)
    requires forall i :: 0 <= i < |s| ==> s[i].packet.pt == PING ==> s[i].echo.Sent?
    ensures Successive(s) == Messages(s[..Life(s)])
    ensures Life(s) < |s| ==> s[Life(s)].packet.pt == CLOSE && LastReply(s) == EndOfFile
    ensures SuccessiveWritten(s) == Pongs(s[..Life(s)])
  {
    CallsFilter(s);
    CallsWrite(s);
    WrittenArePongs(s[..Life(s)]);
    if Life(s) < |s| {
      AppendWritten(s, Life(s));
    } else {
      assert s[..|s|] == s;
    }
  }
}
