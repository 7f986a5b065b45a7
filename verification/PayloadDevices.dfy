/** The stateful encoder and decoder of one payload (engineio/payload/encoder.go, decoder.go):
    every field update is proved against the functions of `PayloadCodec`. */
module PayloadDevices {
  import opened Bytes
  import opened Numerals
  import opened CodeUnits
  import opened PayloadCodec
  import Base64

  /** Writes one packet at a time into the writer it was handed. */
  class Encoder {
    const supportBinary: bool
    var ft: FrameType
    var pt: byte
    var frameCache: seq<byte>
    var rawWriter: Buffer

    constructor (supportBinary: bool, w: Buffer)
      ensures this.supportBinary == supportBinary && rawWriter == w && frameCache == []
    {
      this.supportBinary := supportBinary;
      ft, pt, frameCache, rawWriter := StringFrame, 0, [], w;
    }

    /** Starts a packet; `w` is what `getWriter` returned. */
    method NextWriter(w: Buffer, ft: FrameType, pt: byte)
      modifies this
      ensures rawWriter == w && this.ft == ft && this.pt == pt && frameCache == []
    {
      rawWriter := w;
      this.ft := ft;
      this.pt := pt;
      frameCache := [];
    }

    method Write(p: seq<byte>)
      modifies this`frameCache
      ensures frameCache == old(frameCache) + p
    {
      frameCache := frameCache + p;
    }

    /** Finishes the packet: header first, then the frame. */
    method Close()
      requires Fits(supportBinary, Packet(ft, pt, frameCache))
      modifies this`frameCache, rawWriter
      ensures rawWriter.data == old(rawWriter.data) + EncodePacket(supportBinary, Packet(ft, pt, old(frameCache)))
      ensures frameCache == []
    {
      ghost var p := Packet(ft, pt, frameCache);
      if !supportBinary && ft == BinaryFrame {
        frameCache := Base64.Encode(frameCache);
      }
      var header := new Buffer();
      WriteHeader(header, p);
      PacketBytes(rawWriter.data, supportBinary, p);
      rawWriter.Write(header.data);
      rawWriter.Write(frameCache);
      frameCache := [];
    }

    static lemma PacketBytes(before: seq<byte>, binary: bool, p: Packet)
      ensures before + HeaderText(binary, p) + WireBody(binary, p) == before + EncodePacket(binary, p)
    {
    }

    method WriteHeader(header: Buffer, ghost p: Packet)
      requires p.ft == ft && p.pt == pt && frameCache == WireBody(supportBinary, p) && Fits(supportBinary, p)
      requires header.data == []
      modifies header
      ensures header.data == HeaderText(supportBinary, p)
    {
      if supportBinary {
        WriteBinaryHeader(header, p);
      } else if ft == BinaryFrame {
        WriteB64Header(header, p);
      } else {
        WriteTextHeader(header, p);
      }
    }

    method WriteTextHeader(header: Buffer, ghost p: Packet)
      requires !supportBinary && p == Packet(ft, pt, frameCache) && ft == StringFrame && Fits(supportBinary, p)
      requires header.data == []
      modifies header
      ensures header.data == HeaderText(supportBinary, p)
    {
      var l := CalcCodeUnitLength(frameCache);
      WriteLen(Text, l, header);
      header.WriteByte(StringByte(pt));
    }

    method WriteB64Header(header: Buffer, ghost p: Packet)
      requires !supportBinary && p.ft == ft == BinaryFrame && p.pt == pt && Fits(supportBinary, p)
      requires frameCache == Base64.Encode(p.data) && header.data == []
      modifies header
      ensures header.data == HeaderText(supportBinary, p)
    {
      var l := RuneCount(frameCache) + 2;
      WriteLen(Text, l, header);
      header.WriteByte(BASE64_MARK);
      header.WriteByte(StringByte(pt));
    }

    method WriteBinaryHeader(header: Buffer, ghost p: Packet)
      requires supportBinary && p == Packet(ft, pt, frameCache) && Fits(supportBinary, p)
      requires header.data == []
      modifies header
      ensures header.data == HeaderText(supportBinary, p)
    {
      var l := CalcCodeUnitLength(frameCache);
      var b := StringByte(pt);
      if ft == BinaryFrame {
        b := pt;
      }
      header.WriteByte(FrameByte(ft));
      WriteLen(Binary, l, header);
      header.WriteByte(b);
    }
  }

  /** What the decoder hands back to the feeder when it is done with its reader. */
  datatype Reply = Done | Broken(e: ReadError) | BadBase64

  /** Reads packets from the reader it was fed, and gives that reader back at the end. */
  class Decoder {
    var rawReader: Reader?
    var n: int64
    var supportBinary: bool
    var ft: FrameType
    var pt: byte
    var badBase64: bool           // the base64 reader keeps its error
    var replies: seq<Reply>

    ghost predicate Valid()
      reads this, rawReader
    {
      && (rawReader != null ==> rawReader.Valid())
      && (badBase64 ==> Wrapped())
    }

    /** The frame being read: its types, remaining budget, and the unread stream. */
    ghost function Limit(): Limited
      requires Valid() && rawReader != null
      reads this, rawReader
    {
      Limited(rawReader.Rest(), n)
    }

    predicate Wrapped()
      reads this
    {
      !supportBinary && ft == BinaryFrame
    }

    /** The budget of the current frame does not surge. */
    ghost predicate Steady()
      requires Valid() && rawReader != null
      reads this, rawReader
    {
      Wrapped() || !Surges(rawReader.Rest(), n)
    }

    /** The position at which the current frame ends. */
    ghost function End(): (e: nat)
      requires Valid() && rawReader != null
      reads this, rawReader
      ensures rawReader.pos <= e <= |rawReader.data|
    {
      FrameEnd(Wrapped(), rawReader.data, rawReader.pos, n)
    }

    /** The stream behind the current frame. */
    ghost function Behind(): seq<byte>
      requires Valid() && rawReader != null
      reads this, rawReader
    {
      rawReader.data[End()..]
    }

    /** What reading the current frame to its end delivers. */
    ghost function Delivers(): Option<seq<byte>>
      requires Valid() && rawReader != null
      reads this, rawReader
    {
      var body := rawReader.data[rawReader.pos..End()];
      if badBase64 then None else if Wrapped() then Base64.Decode(body) else Some(body)
    }

    constructor ()
      ensures Valid() && rawReader == null && replies == []
    {
      rawReader, n, supportBinary, ft, pt, badBase64, replies := null, 0, false, StringFrame, 0, false, [];
    }

    /** `setNextReader`: on success the next frame is current, on failure only the stream has moved. */
    method SetNextReader(r: Reader, binary: bool) returns (err: Option<ReadError>)
      requires r.Valid()
      modifies this, r
      ensures r.Valid() && replies == old(replies)
      ensures match ParseHeader(binary, old(r.Rest()))
              case Err(e) => err == Some(e) && unchanged(this)
              case Ok(h) => err == None && rawReader == r && supportBinary == binary && !badBase64
                            && ft == h.ft && pt == h.pt && n == h.n && r.Rest() == h.rest
    {
      var h: (FrameType, byte), l: int64;
      if binary {
        var b := r.ReadByte();
        if b.None? { return Some(EOF); }
        if b.value > 1 { return Some(InvalidPayload); }
        var frame := if b.value == 0 then StringFrame else BinaryFrame;
        var len := ReadLength(Binary, r);
        if len.Err? { return Some(len.error); }
        b := r.ReadByte();
        if b.None? { return Some(EOF); }
        var announced: int := len.value;
        h, l := (frame, ByteToPacketType(b.value, frame)), Wrap64(announced - 1);
      } else {
        var len := ReadLength(Text, r);
        if len.Err? { return Some(len.error); }
        var frame := StringFrame;
        var b := r.ReadByte();
        if b.None? { return Some(EOF); }
        var announced: int := len.value;
        l := Wrap64(announced - 1);
        if b.value == BASE64_MARK {
          frame := BinaryFrame;
          b := r.ReadByte();
          if b.None? { return Some(EOF); }
          announced := l;
          l := Wrap64(announced - 1);
        }
        h := (frame, ByteToPacketType(b.value, StringFrame));
      }
      ft, pt, rawReader, n, supportBinary, badBase64 := h.0, h.1, r, l, binary, false;
      err := None;
    }

    /** Opens a payload if none is open; `fed` is what `getReader` returned. A header that cannot be read
        is reported to the feeder. */
    method NextReader(fed: Reader, binary: bool) returns (err: Option<ReadError>)
      requires Valid() && fed.Valid()
      modifies this, fed
      ensures old(rawReader) != null ==> err == None && unchanged(this) && unchanged(fed)
      ensures Valid()
      ensures old(rawReader) == null ==>
              match ParseHeader(binary, old(fed.Rest()))
              case Err(e) => err == Some(e) && rawReader == null && replies == old(replies) + [Broken(e)]
              case Ok(h) => err == None && rawReader == fed && supportBinary == binary && replies == old(replies)
                            && !badBase64 && ft == h.ft && pt == h.pt && n == h.n && fed.Rest() == h.rest
    {
      err := None;
      if rawReader == null {
        err := SetNextReader(fed, binary);
        if err.Some? {
          replies := replies + [Broken(err.value)];
        }
      }
    }

    /** `Read` of a frame that is not wrapped: the plain limited read, then the refund for every lead byte. */
    method Read(size: nat, grant: nat) returns (data: seq<byte>, eof: bool)
      requires Valid() && rawReader != null && !Wrapped()
      modifies this`n, rawReader
      ensures Valid() && rawReader.pos == old(rawReader.pos) + |data|
      ensures data == rawReader.data[old(rawReader.pos)..rawReader.pos]
      ensures size > 0 && grant > 0 && !eof ==> data != []
      ensures (data, Limit(), eof) == ReadChunk(old(Limit()), size, grant)
    {
      if n <= 0 {
        return [], true;
      }
      ghost var rest := rawReader.Rest();
      var room := if size > n then n else size;
      eof := rawReader.pos == |rawReader.data|;
      var k := Min(Min(room, grant), |rawReader.data| - rawReader.pos);
      data := rawReader.data[rawReader.pos..rawReader.pos + k];
      var unicodeCount := CountRefund(data);
      rawReader.pos := rawReader.pos + k;
      var refunded: int := n;
      n := Wrap64(refunded - k + unicodeCount);
      assert data == rest[..k] && rawReader.Rest() == rest[k..];
    }

    /** Seen from the stream, a read takes the next bytes; without a surge it leaves the end of the frame where it
        is. */
    method ReadTowardsEnd(size: nat, grant: nat) returns (data: seq<byte>, eof: bool)
      requires Valid() && rawReader != null && !Wrapped()
      modifies this`n, rawReader
      ensures Valid()
      ensures rawReader.pos == old(rawReader.pos) + |data| && data == rawReader.data[old(rawReader.pos)..rawReader.pos]
      ensures size > 0 && grant > 0 && !eof ==> data != []
      ensures old(Steady()) ==> Steady() && End() == old(End()) && (eof <==> old(rawReader.pos == End()))
    {
      ghost var stream, pos, budget := rawReader.data, rawReader.pos, n;
      data, eof := Read(size, grant);
      if !Surges(stream[pos..], budget) {
        ChunkAt(stream, pos, budget, size, grant);
      }
    }

    /** Reads in chunks of any size until end of file. */
    method ReadPlain() returns (got: seq<byte>)
      requires Valid() && rawReader != null && !Wrapped()
      modifies this`n, rawReader
      ensures Valid() && old(rawReader.pos) <= rawReader.pos && got == rawReader.data[old(rawReader.pos)..rawReader.pos]
      ensures old(Steady()) ==> Steady() && rawReader.pos == old(End()) == End()
    {
      got := [];
      var eof := false;
      while !eof
        invariant Valid() && old(rawReader.pos) <= rawReader.pos
        invariant got == rawReader.data[old(rawReader.pos)..rawReader.pos]
        invariant old(Steady()) ==> Steady() && End() == old(End()) && (eof ==> rawReader.pos == End())
        decreases !eof, |rawReader.data| - rawReader.pos
      {
        var size: nat, grant: nat :| size > 0 && grant > 0;
        var chunk;
        chunk, eof := ReadTowardsEnd(size, grant);
        Adjacent(rawReader.data, old(rawReader.pos), rawReader.pos - |chunk|, rawReader.pos);
        got := got + chunk;
      }
    }

    /** Reads the current frame to its end: a wrapped frame through base64, any other in chunks of any size. */
    method ReadAll() returns (data: Option<seq<byte>>)
      requires Valid() && rawReader != null
      modifies this`n, this`badBase64, rawReader
      ensures Valid() && old(rawReader.pos) <= rawReader.pos && (data == None <==> badBase64)
      ensures old(Steady()) ==> data == old(Delivers()) && Steady()
      ensures old(Steady()) && !old(badBase64) ==> rawReader.pos == old(End()) == End()
    {
      if Wrapped() {
        if badBase64 {
          return None;
        }
        var k := if n <= 0 then 0 else Min(n, |rawReader.data| - rawReader.pos);
        var body := rawReader.data[rawReader.pos..rawReader.pos + k];
        rawReader.pos := rawReader.pos + k;
        n := n - k;
        data := Base64.Decode(body);
        badBase64 := data.None?;
      } else {
        var got := ReadPlain();
        data := Some(got);
      }
    }

    /** Drains what is left of the frame and moves to the next one; at the end of the stream the reader goes back
        to the feeder with the news that all is well, and on an error with the error. */
    method Close() returns (err: Option<Reply>)
      requires Valid() && rawReader != null
      modifies this, rawReader
      ensures Valid() && supportBinary == old(supportBinary)
      ensures err.Some? ==> rawReader == old(rawReader) && err.value != Done && replies == old(replies) + [err.value]
      ensures err.None? && rawReader != null ==>
                && rawReader == old(rawReader) && rawReader.pos > old(rawReader.pos)
                && replies == old(replies) && !badBase64
      ensures rawReader == null ==> replies == old(replies) + [Done]
      ensures old(Steady()) && old(Delivers()) == None ==> err == Some(BadBase64)
      ensures old(Steady()) && old(Delivers()) != None ==>
              match ParseHeader(supportBinary, old(Behind()))
              case Ok(h) => err == None && rawReader != null
                            && ft == h.ft && pt == h.pt && n == h.n && rawReader.Rest() == h.rest
              case Err(EOF) => err == None && rawReader == null
              case Err(e) => err == Some(Broken(e))
    {
      var rest := ReadAll();
      if rest.None? {
        replies := replies + [BadBase64];
        return Some(BadBase64);
      }
      ghost var pos := rawReader.pos;
      var e := SetNextReader(rawReader, supportBinary);
      if e.None? {
        assert |rawReader.Rest()| < |rawReader.data[pos..]|;
        return None;
      }
      if e != Some(EOF) {
        replies := replies + [Broken(e.value)];
        return Some(Broken(e.value));
      }
      rawReader, n := null, 0;
      replies := replies + [Done];
      err := None;
    }

    /** A consumer that reads every packet of one payload; the feeder is answered exactly once. If no budget surges
        it gets what `DecodePayload` says. */
    method Receive(fed: Reader, binary: bool) returns (packets: seq<Packet>, ending: Ending)
      requires Valid() && rawReader == null && fed.Valid()
      modifies this, fed
      ensures |replies| == |old(replies)| + 1 && replies[..|old(replies)|] == old(replies)
      ensures ending == Clean <==> replies[|old(replies)|] == Done
      ensures old(Calm(binary, fed.Rest())) ==> (packets, ending) == DecodePayload(binary, old(fed.Rest()))
    {
      ghost var calm, all := Calm(binary, fed.Rest()), DecodePayload(binary, fed.Rest());
      var err := NextReader(fed, binary);
      if err.Some? {
        return [], Failed(err.value);
      }
      packets := [];
      var open := true;
      ending := Clean;
      assert Upcoming([]) == all by { assert [] + all.0 == all.0; }
      while open
        invariant Valid() && (open ==> rawReader == fed && replies == old(replies) && !badBase64)
        invariant !open ==> |replies| == |old(replies)| + 1 && replies[..|old(replies)|] == old(replies)
        invariant !open ==> (ending == Clean <==> replies[|old(replies)|] == Done)
        invariant calm && open ==> CalmAhead() && Upcoming(packets) == all
        invariant calm && !open ==> (packets, ending) == all
        decreases open, |fed.data| - fed.pos
      {
        packets, open, ending := ReceiveOne(packets);
      }
    }

    /** The open frame and those behind it. */
    ghost function Ahead(): Header
      requires Valid() && rawReader != null
      reads this, rawReader
    {
      Header(ft, pt, n, rawReader.Rest())
    }

    ghost predicate CalmAhead()
      requires Valid() && rawReader != null
      reads this, rawReader
    {
      CalmFrom(supportBinary, Ahead())
    }

    /** The packets so far, in front of what the open frame and the stream behind it still hold. */
    ghost function Upcoming(packets: seq<Packet>): (seq<Packet>, Ending)
      requires Valid() && rawReader != null
      reads this, rawReader
    {
      Prepend(packets, DecodeFrom(supportBinary, Ahead()))
    }

    /** One frame: read it, close it. */
    method ReceiveOne(before: seq<Packet>) returns (packets: seq<Packet>, open: bool, ending: Ending)
      requires Valid() && rawReader != null && !badBase64
      modifies this, rawReader
      ensures Valid()
      ensures open ==> rawReader == old(rawReader) && rawReader.pos > old(rawReader.pos)
      ensures open ==> replies == old(replies) && !badBase64
      ensures !open ==> |replies| == |old(replies)| + 1 && replies[..|old(replies)|] == old(replies)
                        && (ending == Clean <==> replies[|old(replies)|] == Done)
      ensures old(CalmAhead()) && open ==> CalmAhead() && Upcoming(packets) == old(Upcoming(before))
      ensures old(CalmAhead()) && !open ==> (packets, ending) == old(Upcoming(before))
    {
      FrameAt(supportBinary, ft, pt, n, rawReader.data, rawReader.pos);
      DecodeRound(supportBinary, Ahead(), before);
      var nft, npt := ft, pt;
      var data := ReadAll();
      packets := if data.Some? then before + [Packet(nft, npt, data.value)] else before;
      assert old(CalmAhead()) && data.Some? ==> rawReader.data[rawReader.pos..End()] == [];
      var e := Close();
      open := e.None? && rawReader != null;
      ending := if e.None? then Clean else if e.value.BadBase64? then Corrupt else Failed(e.value.e);
    }
  }

  lemma Adjacent(s: seq<byte>, a: nat, b: nat, c: nat)
    requires a <= b <= c <= |s|
    ensures s[a..b] + s[b..c] == s[a..c]
  {
  }

  method CountRefund(data: seq<byte>) returns (unicodeCount: nat)
    ensures unicodeCount == TotalRefund(data)
  {
    unicodeCount := 0;
    for i := 0 to |data|
      invariant unicodeCount == TotalRefund(data[..i])
    {
      var b := data[i];
      TotalsSplit(data[..i], [b]);
      assert data[..i + 1] == data[..i] + [b] && [b][1..] == [];
      if b / 8 == 30 {
        unicodeCount := unicodeCount + 2;
      } else if b / 16 == 14 {
        unicodeCount := unicodeCount + 2;
      } else if b / 32 == 6 {
        unicodeCount := unicodeCount + 1;
      }
    }
    assert data[..|data|] == data;
  }
}
