/** The session's upgrader on its own (engineio/session/session.go, `upgrading`): whatever succeeds or fails on
    the way, what was opened is closed and the session ends up on exactly one connection. */
module UpgradeLedger {
  import opened Bytes
  import opened PayloadCodec

  /** A reader or writer of one packet. */
  class Frame {
    const packet: Packet
    var data: seq<byte>
    var closes: nat

    constructor (packet: Packet, data: seq<byte>)
      ensures this.packet == packet && this.data == data && closes == 0
    {
      this.packet, this.data, closes := packet, data, 0;
    }

    method Close()
      modifies this
      ensures closes == old(closes) + 1 && data == old(data)
    {
      closes := closes + 1;
    }
  }

  /** A transport connection and its books. */
  class Connection {
    const pausable: bool      // a polling connection; the others do not implement `Pauser`
    var closes: nat
    var pauses: nat
    var resumes: nat
    var frames: seq<Frame>

    constructor (pausable: bool)
      ensures this.pausable == pausable && closes == 0 && pauses == 0 && resumes == 0 && frames == []
    {
      this.pausable, closes, pauses, resumes, frames := pausable, 0, 0, 0, [];
    }

    method Close()
      modifies this`closes
      ensures closes == old(closes) + 1
    {
      closes := closes + 1;
    }

    method Pause()
      modifies this`pauses
      ensures pauses == old(pauses) + 1
    {
      pauses := pauses + 1;
    }

    method Resume()
      modifies this`resumes
      ensures resumes == old(resumes) + 1
    {
      resumes := resumes + 1;
    }

    method NextReader(p: Packet) returns (f: Frame)
      modifies this`frames
      ensures fresh(f) && frames == old(frames) + [f] && f.packet == p && f.data == p.data && f.closes == 0
    {
      f := new Frame(p, p.data);
      frames := frames + [f];
    }

    method NextWriter(ft: FrameType, pt: byte) returns (f: Frame)
      modifies this`frames
      ensures fresh(f) && frames == old(frames) + [f] && f.packet == Packet(ft, pt, []) && f.closes == 0
    {
      f := new Frame(Packet(ft, pt, []), []);
      frames := frames + [f];
    }
  }

  /** What the environment answers: each operation's success, and the packets the client sends.
      The outcome of a close that is only logged is left out. */
  datatype Answers = Answers(
    readDeadline: bool,
    ping: Option<Packet>,
    writeDeadline: bool,
    pongWriter: bool,
    copied: Option<nat>,      // `None`: all of it; otherwise the copy failed after so many bytes
    pingClosed: bool,
    pongClosed: bool,
    upgrade: Option<Packet>,
    upgradeClosed: bool
  )

  /** The probe: a PING that was echoed, and both frames closed without an error. */
  predicate Probed(a: Answers) {
    && a.readDeadline && a.ping.Some? && a.ping.value.pt == PING
    && a.writeDeadline && a.pongWriter && a.copied.None? && a.pingClosed && a.pongClosed
  }

  /** The client asked for the switch. */
  predicate Confirmed(a: Answers) {
    a.upgrade.Some? && a.upgrade.value.pt == UPGRADE && a.upgradeClosed
  }

  datatype Act = PausedOld | ResumedOld | Installed | ClosedNew | ClosedOld

  class Session {
    var conn: Connection
    var transport: string
    ghost var acts: seq<Act>

    constructor (conn: Connection, transport: string)
      ensures this.conn == conn && this.transport == transport && acts == []
    {
      this.conn, this.transport, acts := conn, transport, [];
    }

    /** Every frame opened in the meantime is new and has been closed exactly once. */
    twostate predicate FramesSettled(conn: Connection)
      reads conn, conn.frames
    {
      && old(conn.frames) <= conn.frames
      && forall k :: |old(conn.frames)| <= k < |conn.frames| ==>
           fresh(conn.frames[k]) && conn.frames[k].closes == 1
    }

    /** The upgrade takes place exactly if the probe succeeds, the old connection can pause and the client
        confirms. Then connection and name change together and the old connection is closed once, after the
        swap; otherwise both stay, the new connection is closed once, and the old one is resumed, last of all,
        if it was paused. */
    method Upgrading(name: string, next: Connection, a: Answers)
      requires next != conn
      modifies this, conn, next
      ensures FramesSettled(next)
      ensures var done := Probed(a) && old(conn).pausable && Confirmed(a);
              && conn == (if done then next else old(conn))
              && transport == (if done then name else old(transport))
              && old(conn).closes == old(conn.closes) + (if done then 1 else 0)
              && next.closes == old(next.closes) + (if done then 0 else 1)
              && old(conn).pauses - old(conn.pauses) == (if Probed(a) && old(conn).pausable then 1 else 0)
              && old(conn).resumes - old(conn.resumes) == old(conn).pauses - old(conn.pauses) - (if done then 1 else 0)
              && acts == old(acts) + (if done then [PausedOld, Installed, ClosedOld]
                                      else if Probed(a) && old(conn).pausable then [PausedOld, ClosedNew, ResumedOld]
                                      else [ClosedNew])
      ensures old(conn).frames == old(conn.frames)
      ensures next.pauses == old(next.pauses) && next.resumes == old(next.resumes)
      ensures Probed(a) ==>
                && |next.frames| >= |old(next.frames)| + 2
                && var pong := next.frames[|old(next.frames)| + 1];
                pong.packet == Packet(a.ping.value.ft, PONG, []) && pong.data == a.ping.value.data
    {
      var probed := Probe(next, a);
      if !probed {
        next.Close();
        acts := acts + [ClosedNew];
        return;
      }
      var previous := conn;
      if !previous.pausable {
        next.Close();
        acts := acts + [ClosedNew];
        return;
      }
      previous.Pause();
      acts := acts + [PausedOld];
      var confirmed := Confirm(next, a);
      if !confirmed {
        next.Close();
        acts := acts + [ClosedNew];
        previous.Resume();
        acts := acts + [ResumedOld];
        return;
      }
      conn := next;
      transport := name;
      acts := acts + [Installed];
      previous.Close();
      acts := acts + [ClosedOld];
    }

    /** Reads a PING and echoes it as a PONG. */
    static method Probe(next: Connection, a: Answers) returns (ok: bool)
      modifies next`frames
      ensures ok == Probed(a)
      ensures old(next.frames) <= next.frames
      ensures forall k :: |old(next.frames)| <= k < |next.frames| ==>
                fresh(next.frames[k]) && next.frames[k].closes == 1
      ensures ok ==>
                && |next.frames| == |old(next.frames)| + 2
                && var pong := next.frames[|old(next.frames)| + 1];
                pong.packet == Packet(a.ping.value.ft, PONG, []) && pong.data == a.ping.value.data
    {
      if !a.readDeadline || a.ping.None? {
        return false;
      }
      var r := next.NextReader(a.ping.value);
      if r.packet.pt != PING {
        r.Close();
        return false;
      }
      if !a.writeDeadline || !a.pongWriter {
        r.Close();
        return false;
      }
      var w := next.NextWriter(r.packet.ft, PONG);
      w.data := if a.copied.None? || a.copied.value >= |r.data| then r.data else r.data[..a.copied.value];
      if a.copied.Some? {
        w.Close();
        r.Close();
        return false;
      }
      r.Close();
      if !a.pingClosed {
        w.Close();
        return false;
      }
      w.Close();
      ok := a.pongClosed;
    }

    /** Waits for the UPGRADE packet. */
    static method Confirm(next: Connection, a: Answers) returns (ok: bool)
      modifies next`frames
      ensures ok == Confirmed(a)
      ensures old(next.frames) <= next.frames
      ensures forall k :: |old(next.frames)| <= k < |next.frames| ==>
                fresh(next.frames[k]) && next.frames[k].closes == 1
    {
      if a.upgrade.None? {
        return false;
      }
      var r := next.NextReader(a.upgrade.value);
      r.Close();
      ok := r.packet.pt == UPGRADE && a.upgradeClosed;
    }
  }
}
