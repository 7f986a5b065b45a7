/** The polling payload: packets framed one behind the other (engineio/payload, Engine.IO protocol
    revision 3, section "Encoding", subsection "Payload"). */
module PayloadCodec {
  import opened Bytes
  import opened Numerals
  import opened CodeUnits
  import Base64

  datatype FrameType = StringFrame | BinaryFrame

  datatype Packet = Packet(ft: FrameType, pt: byte, data: seq<byte>)

  const ZERO_CHAR: byte := '0' as int
  const BASE64_MARK: byte := 'b' as int

  // Packet types of the protocol.
  const OPEN: byte := 0
  const CLOSE: byte := 1
  const PING: byte := 2
  const PONG: byte := 3
  const MESSAGE: byte := 4
  const UPGRADE: byte := 5
  const NOOP: byte := 6

  function StringByte(pt: byte): byte { (pt + ZERO_CHAR) % 256 }

  function ByteToPacketType(b: byte, ft: FrameType): byte {
    if ft.StringFrame? then (b - ZERO_CHAR) % 256 else b
  }

  function FrameByte(ft: FrameType): byte { if ft.StringFrame? then 0 else 1 }

  /** `utf8.RuneCount` of ASCII text. */
  function RuneCount(s: seq<byte>): nat
    requires forall i :: 0 <= i < |s| ==> s[i] < 128
  {
    |s|
  }

  // ---------- encoding ----------

  /** The bytes a frame body becomes; only text mode wraps binary frames. */
  function WireBody(binaryMode: bool, p: Packet): seq<byte> {
    if !binaryMode && p.ft.BinaryFrame? then Base64.Encode(p.data) else p.data
  }

  /** The length that is announced for a packet. */
  function LengthField(binaryMode: bool, p: Packet): nat {
    if !binaryMode && p.ft.BinaryFrame? then RuneCount(Base64.Encode(p.data)) + 2
    else 1 + TotalUnits(p.data)
  }

  function HeaderText(binaryMode: bool, p: Packet): seq<byte> {
    if binaryMode then
      [FrameByte(p.ft)] + LenText(Binary, LengthField(binaryMode, p))
      + [if p.ft.BinaryFrame? then p.pt else StringByte(p.pt)]
    else if p.ft.BinaryFrame? then
      LenText(Text, LengthField(binaryMode, p)) + [BASE64_MARK, StringByte(p.pt)]
    else
      LenText(Text, LengthField(binaryMode, p)) + [StringByte(p.pt)]
  }

  function EncodePacket(binaryMode: bool, p: Packet): seq<byte> {
    HeaderText(binaryMode, p) + WireBody(binaryMode, p)
  }

  function EncodePayload(binaryMode: bool, ps: seq<Packet>): seq<byte> {
    if ps == [] then [] else EncodePacket(binaryMode, ps[0]) + EncodePayload(binaryMode, ps[1..])
  }

  // ---------- decoding ----------

  datatype Header = Header(ft: FrameType, pt: byte, n: int, rest: seq<byte>)

  /** `textRead` and `binaryRead`: frame type, packet type and byte budget of the next frame. */
  function ParseHeader(binaryMode: bool, s: seq<byte>): (r: Result<Header, ReadError>)
    ensures r.Ok? ==> |r.value.rest| < |s|
  {
    if binaryMode then ParseBinaryHeader(s) else ParseTextHeader(s)
  }

  function ParseTextHeader(s: seq<byte>): (r: Result<Header, ReadError>)
    ensures r.Ok? ==> |r.value.rest| < |s|
  {
    match ReadLen(Text, s, 0)
    case Err(e) => Err(e)
    case Ok((l, s1)) =>
      if s1 == [] then Err(EOF)
      else if s1[0] == BASE64_MARK then
        if |s1| == 1 then Err(EOF)
        else Ok(Header(BinaryFrame, ByteToPacketType(s1[1], StringFrame), Wrap64(Wrap64(l - 1) - 1), s1[2..]))
      else Ok(Header(StringFrame, ByteToPacketType(s1[0], StringFrame), Wrap64(l - 1), s1[1..]))
  }

  function ParseBinaryHeader(s: seq<byte>): (r: Result<Header, ReadError>)
    ensures r.Ok? ==> |r.value.rest| < |s|
  {
    if s == [] then Err(EOF)
    else if s[0] > 1 then Err(InvalidPayload)
    else
      var ft := if s[0] == 0 then StringFrame else BinaryFrame;
      match ReadLen(Binary, s[1..], 0)
      case Err(e) => Err(e)
      case Ok((l, s1)) =>
        if s1 == [] then Err(EOF)
        else Ok(Header(ft, ByteToPacketType(s1[0], ft), Wrap64(l - 1), s1[1..]))
  }

  /** How many bytes of the stream `rest` belong to a frame with budget `n`. A base64 frame
      is read through the plain limit, any other frame through the refunded one. */
  function FrameLength(wrapped: bool, rest: seq<byte>, n: int): (k: nat)
    ensures k <= |rest|
  {
    if !wrapped then Stop(rest, n) else if n <= 0 then 0 else Min(n, |rest|)
  }

  /** Where a frame that is being read at position `pos` of the stream ends. */
  function FrameEnd(wrapped: bool, stream: seq<byte>, pos: nat, n: int): (e: nat)
    requires pos <= |stream|
    ensures pos <= e <= |stream|
  {
    pos + FrameLength(wrapped, stream[pos..], n)
  }

  /** Without a surge of the budget, a limited read at position `pos` of a stream takes the bytes from there, keeps
      the end of the frame where it is, and reports end of file exactly at that end. */
  lemma ChunkAt(stream: seq<byte>, pos: nat, n: int, size: nat, grant: nat)
    requires pos <= |stream| && n < TWO_63 && !Surges(stream[pos..], n)
    ensures var (data, l, eof) := ReadChunk(Limited(stream[pos..], n), size, grant);
            && pos + |data| <= |stream| && data == stream[pos..pos + |data|]
            && FrameEnd(false, stream, pos + |data|, l.n) == FrameEnd(false, stream, pos, n)
            && (eof <==> pos == FrameEnd(false, stream, pos, n))
            && !Surges(stream[pos + |data|..], l.n)
  {
    var l := Limited(stream[pos..], n);
    var (data, l', _) := ReadChunk(l, size, grant);
    ChunkKeepsEnd(l, size, grant);
    ChunkPlace(stream, pos, data, l'.rest);
    assert |data| + |Body(l')| == |Body(l)|;
  }

  lemma ChunkPlace(stream: seq<byte>, pos: nat, data: seq<byte>, rest: seq<byte>)
    requires pos <= |stream| && data + rest == stream[pos..]
    ensures pos + |data| <= |stream| && data == stream[pos..pos + |data|] && rest == stream[pos + |data|..]
  {
    assert |data + rest| == |stream| - pos;
    assert stream[pos..][..|data|] == data && stream[pos..][|data|..] == rest;
    assert stream[pos..pos + |data|] == stream[pos..][..|data|] && stream[pos + |data|..] == stream[pos..][|data|..];
  }

  function BodyLength(binaryMode: bool, h: Header): (k: nat)
    ensures k <= |h.rest|
  {
    FrameLength(!binaryMode && h.ft.BinaryFrame?, h.rest, h.n)
  }

  function FrameData(binaryMode: bool, h: Header): Option<seq<byte>> {
    var body := h.rest[..BodyLength(binaryMode, h)];
    if !binaryMode && h.ft.BinaryFrame? then Base64.Decode(body) else Some(body)
  }

  datatype Ending = Clean | Corrupt | Failed(e: ReadError)

  /** Everything a reader of the stream gets, as long as no budget surges: the packets, and how the stream ended.
      After the first packet an end of file inside a header counts as a clean end. */
  function DecodePayload(binaryMode: bool, s: seq<byte>): (seq<Packet>, Ending) {
    match ParseHeader(binaryMode, s)
    case Err(e) => ([], Failed(e))
    case Ok(h) => DecodeFrom(binaryMode, h)
  }

  function DecodeFrom(binaryMode: bool, h: Header): (seq<Packet>, Ending)
    decreases |h.rest|
  {
    match FrameData(binaryMode, h)
    case None => ([], Corrupt)
    case Some(data) =>
      var p := Packet(h.ft, h.pt, data);
      match ParseHeader(binaryMode, h.rest[BodyLength(binaryMode, h)..])
      case Err(EOF) => ([p], Clean)
      case Err(e) => ([p], Failed(e))
      case Ok(next) =>
        var (ps, ending) := DecodeFrom(binaryMode, next);
        ([p] + ps, ending)
  }

  /** No frame of the stream makes its budget surge. A wrapped frame has no refunds. */
  predicate Calm(binaryMode: bool, s: seq<byte>) {
    match ParseHeader(binaryMode, s)
    case Err(_) => true
    case Ok(h) => CalmFrom(binaryMode, h)
  }

  predicate CalmFrom(binaryMode: bool, h: Header)
    decreases |h.rest|
  {
    && ((!binaryMode && h.ft.BinaryFrame?) || !Surges(h.rest, h.n))
    && match ParseHeader(binaryMode, h.rest[BodyLength(binaryMode, h)..])
       case Err(_) => true
       case Ok(next) => CalmFrom(binaryMode, next)
  }

  lemma MessageHeader(s: seq<byte>, l: int64, rest: seq<byte>)
    requires ReadLen(Text, s, 0) == Ok((l, [StringByte(MESSAGE)] + rest))
    ensures ParseHeader(false, s) == Ok(Header(StringFrame, MESSAGE, Wrap64(l - 1), rest))
  {
    assert ([StringByte(MESSAGE)] + rest)[1..] == rest;
  }

  /** Any announced length is read modulo 2^64; a length of 2^63 leaves the largest budget there is. */
  lemma AnnouncedBudget(l: nat, rest: seq<byte>)
    ensures ParseHeader(false, Shifted(Digits(l), '0' as int) + [':' as int, StringByte(MESSAGE)] + rest)
         == Ok(Header(StringFrame, MESSAGE, Wrap64(Wrap64(l) - 1), rest))
    ensures l == TWO_63 ==> Wrap64(Wrap64(l) - 1) == TWO_63 - 1
  {
    var (digits, tail) := (Digits(l), [StringByte(MESSAGE)] + rest);
    var text := Shifted(digits, '0' as int);
    PushDigits(l);
    ReadLenValue(Text, 0, digits, tail);
    assert text + [':' as int, StringByte(MESSAGE)] + rest == text + [Text.Terminator()] + tail;
    MessageHeader(text + [Text.Terminator()] + tail, Wrap64(l), rest);
  }

  /** Packets received so far in front of what is still to be decoded. */
  function Prepend(before: seq<Packet>, r: (seq<Packet>, Ending)): (seq<Packet>, Ending) {
    (before + r.0, r.1)
  }

  /** One round of `DecodeFrom`, seen by a consumer that already has the packets `before`. */
  lemma DecodeRound(binary: bool, h: Header, before: seq<Packet>)
    ensures var all := Prepend(before, DecodeFrom(binary, h));
            var r := ParseHeader(binary, h.rest[BodyLength(binary, h)..]);
            if FrameData(binary, h).None? then all == (before, Corrupt)
            else
              var now := before + [Packet(h.ft, h.pt, FrameData(binary, h).value)];
              if r == Err(EOF) then all == (now, Clean)
              else if r.Err? then all == (now, Failed(r.error))
              else all == Prepend(now, DecodeFrom(binary, r.value))
  {
    var data, r := FrameData(binary, h), ParseHeader(binary, h.rest[BodyLength(binary, h)..]);
    if data.None? {
      assert before + [] == before;
    } else if r.Ok? {
      var p, more := Packet(h.ft, h.pt, data.value), DecodeFrom(binary, r.value).0;
      assert before + ([p] + more) == (before + [p]) + more;
    }
  }

  /** A frame that starts at `pos` of a stream, as a header with the rest of the stream. */
  lemma FrameAt(binary: bool, ft: FrameType, pt: byte, n: int, stream: seq<byte>, pos: nat)
    requires pos <= |stream|
    ensures var wrapped := !binary && ft == BinaryFrame;
            var h, end := Header(ft, pt, n, stream[pos..]), FrameEnd(wrapped, stream, pos, n);
            && h.rest[BodyLength(binary, h)..] == stream[end..]
            && FrameData(binary, h) == if wrapped then Base64.Decode(stream[pos..end]) else Some(stream[pos..end])
  {
    var h := Header(ft, pt, n, stream[pos..]);
    var k := BodyLength(binary, h);
    assert h.rest[..k] == stream[pos..pos + k] && h.rest[k..] == stream[pos + k..];
  }

  // ---------- round trip ----------

  /** What a packet must satisfy to arrive unharmed: a string packet type must not look like the base64 mark,
      and a body that is not wrapped must be recoverable; as the last one of a payload it only has to last. */
  predicate Sendable(binaryMode: bool, p: Packet, last: bool) {
    && (!binaryMode && p.ft.StringFrame? ==> StringByte(p.pt) != BASE64_MARK)
    && (binaryMode || p.ft.StringFrame? ==> if last then NeverStarved(p.data) else Recoverable(p.data))
  }

  predicate AllSendable(binaryMode: bool, ps: seq<Packet>) {
    forall i :: 0 <= i < |ps| ==> Sendable(binaryMode, ps[i], i == |ps| - 1)
  }

  /** The announced length fits the signed 64-bit number it is computed in. */
  predicate Fits(binaryMode: bool, p: Packet) {
    LengthField(binaryMode, p) < TWO_63
  }

  lemma BinaryHeaderRoundTrip(p: Packet, tail: seq<byte>)
    requires LengthField(true, p) < TWO_63
    ensures ParseHeader(true, HeaderText(true, p) + tail) == Ok(Header(p.ft, p.pt, TotalUnits(p.data), tail))
  {
    var l := LengthField(true, p);
    var mark: byte := if p.ft.BinaryFrame? then p.pt else StringByte(p.pt);
    var s := HeaderText(true, p) + tail;
    LenRoundTrip(Binary, l, [mark] + tail);
    assert s[1..] == LenText(Binary, l) + ([mark] + tail);
    assert ([mark] + tail)[1..] == tail;
  }

  lemma Base64HeaderRoundTrip(p: Packet, tail: seq<byte>)
    requires p.ft.BinaryFrame? && LengthField(false, p) < TWO_63
    ensures ParseHeader(false, HeaderText(false, p) + tail)
         == Ok(Header(BinaryFrame, p.pt, |WireBody(false, p)|, tail))
  {
    var l := LengthField(false, p);
    var marks: seq<byte> := [BASE64_MARK, StringByte(p.pt)];
    var s := HeaderText(false, p) + tail;
    LenRoundTrip(Text, l, marks + tail);
    assert s == LenText(Text, l) + (marks + tail);
    assert (marks + tail)[2..] == tail;
  }

  lemma TextHeaderRoundTrip(p: Packet, tail: seq<byte>)
    requires p.ft.StringFrame? && LengthField(false, p) < TWO_63 && StringByte(p.pt) != BASE64_MARK
    ensures ParseHeader(false, HeaderText(false, p) + tail) == Ok(Header(StringFrame, p.pt, TotalUnits(p.data), tail))
  {
    var l := LengthField(false, p);
    var mark := StringByte(p.pt);
    var s := HeaderText(false, p) + tail;
    LenRoundTrip(Text, l, [mark] + tail);
    assert s == LenText(Text, l) + ([mark] + tail);
    assert ([mark] + tail)[1..] == tail;
  }

  /** The byte budget the announced length leaves for the body. */
  function BudgetFor(binaryMode: bool, p: Packet): nat {
    if binaryMode || p.ft.StringFrame? then TotalUnits(p.data) else |WireBody(binaryMode, p)|
  }

  /** Frame type, packet type and budget survive, and the reader is left exactly at the body. */
  lemma HeaderRoundTrip(binaryMode: bool, p: Packet, tail: seq<byte>)
    requires LengthField(binaryMode, p) < TWO_63
    requires !binaryMode && p.ft.StringFrame? ==> StringByte(p.pt) != BASE64_MARK
    ensures ParseHeader(binaryMode, HeaderText(binaryMode, p) + tail)
         == Ok(Header(p.ft, p.pt, BudgetFor(binaryMode, p), tail))
  {
    if binaryMode {
      BinaryHeaderRoundTrip(p, tail);
    } else if p.ft.BinaryFrame? {
      Base64HeaderRoundTrip(p, tail);
    } else {
      TextHeaderRoundTrip(p, tail);
    }
  }

  /** One frame is read back exactly, and reading stops exactly behind it. */
  lemma FrameRoundTrip(binaryMode: bool, p: Packet, tail: seq<byte>)
    requires Fits(binaryMode, p) && Sendable(binaryMode, p, tail == [])
    ensures var r := ParseHeader(binaryMode, EncodePacket(binaryMode, p) + tail);
            && r.Ok? && r.value.ft == p.ft && r.value.pt == p.pt
            && FrameData(binaryMode, r.value) == Some(p.data)
            && r.value.rest[BodyLength(binaryMode, r.value)..] == tail
  {
    var body := WireBody(binaryMode, p);
    HeaderRoundTrip(binaryMode, p, body + tail);
    assert EncodePacket(binaryMode, p) + tail == HeaderText(binaryMode, p) + (body + tail);
    var h := ParseHeader(binaryMode, EncodePacket(binaryMode, p) + tail).value;
    assert h.rest[|body|..] == tail && h.rest[..|body|] == body;
    if !binaryMode && p.ft.BinaryFrame? {
      Base64.RoundTrip(p.data);
    } else if tail == [] {
      LastRecoveredIff(body);
      assert body + tail == body;
      assert |Body(Limited(body, TotalUnits(body)))| == |body|;
    } else {
      StopBody(body, tail);
    }
  }

  /** The first packet decoded is the first frame of the stream. */
  lemma FirstDecoded(binaryMode: bool, s: seq<byte>, p: Packet)
    requires var r := ParseHeader(binaryMode, s);
             r.Ok? ==> r.value.ft != p.ft || FrameData(binaryMode, r.value) != Some(p.data)
    ensures var ps := DecodePayload(binaryMode, s).0; ps == [] || ps[0] != p
  {
  }

  /** A frame that is not sendable comes back as something else, or not at all. */
  lemma FrameSpoiled(binaryMode: bool, p: Packet, tail: seq<byte>)
    requires Fits(binaryMode, p) && !Sendable(binaryMode, p, tail == [])
    ensures var ps := DecodePayload(binaryMode, EncodePacket(binaryMode, p) + tail).0;
            ps == [] || ps[0] != p
  {
    if !binaryMode && p.ft.StringFrame? && StringByte(p.pt) == BASE64_MARK {
      MarkMistaken(p, tail);
    } else {
      BodyMistaken(binaryMode, p, tail);
    }
    FirstDecoded(binaryMode, EncodePacket(binaryMode, p) + tail, p);
  }

  lemma MarkMistaken(p: Packet, tail: seq<byte>)
    requires p.ft.StringFrame? && Fits(false, p) && StringByte(p.pt) == BASE64_MARK
    ensures var r := ParseHeader(false, EncodePacket(false, p) + tail);
            r.Ok? ==> r.value.ft == BinaryFrame
  {
    var rest := [BASE64_MARK] + p.data + tail;
    LenRoundTrip(Text, LengthField(false, p), rest);
    assert EncodePacket(false, p) + tail == LenText(Text, LengthField(false, p)) + rest;
  }

  lemma BodyMistaken(binaryMode: bool, p: Packet, tail: seq<byte>)
    requires Fits(binaryMode, p) && (binaryMode || p.ft.StringFrame?)
    requires !binaryMode ==> StringByte(p.pt) != BASE64_MARK
    requires if tail == [] then !NeverStarved(p.data) else !Recoverable(p.data)
    ensures var r := ParseHeader(binaryMode, EncodePacket(binaryMode, p) + tail);
            r.Ok? && FrameData(binaryMode, r.value) != Some(p.data)
  {
    HeaderRoundTrip(binaryMode, p, p.data + tail);
    assert EncodePacket(binaryMode, p) + tail == HeaderText(binaryMode, p) + (p.data + tail);
    if tail == [] {
      LastRecoveredIff(p.data);
      assert p.data + tail == p.data;
    } else {
      RecoveredIffRecoverable(p.data, tail);
    }
  }

  lemma DecodeLast(binaryMode: bool, p: Packet)
    requires Fits(binaryMode, p) && Sendable(binaryMode, p, true)
    ensures DecodePayload(binaryMode, EncodePacket(binaryMode, p) + []) == ([p], Clean)
  {
    FrameRoundTrip(binaryMode, p, []);
  }

  lemma DecodeNext(binaryMode: bool, p: Packet, tail: seq<byte>)
    requires Fits(binaryMode, p) && Sendable(binaryMode, p, false) && tail != []
    requires ParseHeader(binaryMode, tail).Ok?
    ensures DecodePayload(binaryMode, EncodePacket(binaryMode, p) + tail)
         == ([p] + DecodePayload(binaryMode, tail).0, DecodePayload(binaryMode, tail).1)
  {
    FrameRoundTrip(binaryMode, p, tail);
  }

  /** The header of a frame can always be read, unless its packet type looks like the base64 mark. */
  lemma NextHeader(binaryMode: bool, p: Packet, tail: seq<byte>)
    requires Fits(binaryMode, p)
    ensures EncodePacket(binaryMode, p) + tail != []
    ensures ParseHeader(binaryMode, EncodePacket(binaryMode, p) + tail).Err?
            ==> !Sendable(binaryMode, p, true) && !Sendable(binaryMode, p, false)
  {
    if binaryMode || p.ft.BinaryFrame? || StringByte(p.pt) != BASE64_MARK {
      var body := WireBody(binaryMode, p);
      HeaderRoundTrip(binaryMode, p, body + tail);
      assert EncodePacket(binaryMode, p) + tail == HeaderText(binaryMode, p) + (body + tail);
    }
  }

  /** Payload round trip, exactly: decoding the concatenated encodings returns the same packets and ends
      cleanly if and only if every packet is sendable. */
  lemma {:induction false} PayloadRoundTrip(binaryMode: bool, ps: seq<Packet>)
    requires ps != [] && forall p :: p in ps ==> Fits(binaryMode, p)
    ensures DecodePayload(binaryMode, EncodePayload(binaryMode, ps)) == (ps, Clean) <==> AllSendable(binaryMode, ps)
    decreases |ps|
  {
    var p, rest := ps[0], ps[1..];
    var tail := EncodePayload(binaryMode, rest);
    HeadTail(ps);
    assert p in ps && forall q :: q in rest ==> q in ps;
    AllSendableSplit(binaryMode, ps);
    if rest == [] {
      if Sendable(binaryMode, p, true) {
        DecodeLast(binaryMode, p);
      } else {
        FrameSpoiled(binaryMode, p, []);
      }
    } else {
      NextHeader(binaryMode, rest[0], EncodePayload(binaryMode, rest[1..]));
      if !Sendable(binaryMode, p, false) {
        FrameSpoiled(binaryMode, p, tail);
      } else {
        PayloadRoundTrip(binaryMode, rest);
        PrependDecoded(binaryMode, p, tail, rest);
      }
    }
  }

  /** In front of a readable header a sendable packet is decoded and the rest is decoded as on its own. */
  lemma PrependDecoded(binaryMode: bool, p: Packet, tail: seq<byte>, rest: seq<Packet>)
    requires Fits(binaryMode, p) && Sendable(binaryMode, p, false) && tail != [] && rest != []
    ensures DecodePayload(binaryMode, EncodePacket(binaryMode, p) + tail) == ([p] + rest, Clean)
            <==> DecodePayload(binaryMode, tail) == (rest, Clean)
  {
    if ParseHeader(binaryMode, tail).Ok? {
      DecodeNext(binaryMode, p, tail);
      var ps := DecodePayload(binaryMode, tail).0;
      assert ([p] + ps)[1..] == ps && ([p] + rest)[1..] == rest;
    } else {
      FrameRoundTrip(binaryMode, p, tail);
      assert |DecodePayload(binaryMode, EncodePacket(binaryMode, p) + tail).0| == 1;
    }
  }

  lemma AllSendableSplit(binaryMode: bool, ps: seq<Packet>)
    requires ps != []
    ensures AllSendable(binaryMode, ps)
       <==> Sendable(binaryMode, ps[0], |ps| == 1) && AllSendable(binaryMode, ps[1..])
  {
    var rest := ps[1..];
    if Sendable(binaryMode, ps[0], |ps| == 1) && AllSendable(binaryMode, rest) {
      forall i | 0 <= i < |ps|
        ensures Sendable(binaryMode, ps[i], i == |ps| - 1)
      {
        if i > 0 {
          assert ps[i] == rest[i - 1];
        }
      }
    }
    if AllSendable(binaryMode, ps) {
      forall i | 0 <= i < |rest|
        ensures Sendable(binaryMode, rest[i], i == |rest| - 1)
      {
        assert rest[i] == ps[i + 1];
      }
    }
  }

  lemma HeadTail(ps: seq<Packet>)
    requires ps != []
    ensures [ps[0]] + ps[1..] == ps
    ensures ps[1..] == [] ==> ps == [ps[0]]
  {
  }

  /** A byte starts two code units at most. */
  lemma {:induction false} UnitsBound(s: seq<byte>)
    ensures TotalUnits(s) <= 2 * |s|
  {
    if s != [] {
      UnitsBound(s[1..]);
    }
  }

  /** A payload of sendable packets, up to 2^61 bytes long, is calm. */
  lemma {:induction false} SendableIsCalm(binaryMode: bool, ps: seq<Packet>)
    requires ps != [] && AllSendable(binaryMode, ps) && |EncodePayload(binaryMode, ps)| <= TWO_63 / 4
    requires forall p :: p in ps ==> Fits(binaryMode, p)
    ensures Calm(binaryMode, EncodePayload(binaryMode, ps))
    decreases |ps|
  {
    var (p, tail) := (ps[0], EncodePayload(binaryMode, ps[1..]));
    AllSendableSplit(binaryMode, ps);
    EmptyPayload(binaryMode, ps[1..]);
    FrameIsCalm(binaryMode, p, tail);
    if ps[1..] != [] {
      SendableIsCalm(binaryMode, ps[1..]);
    }
  }

  lemma EmptyPayload(binaryMode: bool, ps: seq<Packet>)
    requires forall p :: p in ps ==> Fits(binaryMode, p)
    ensures EncodePayload(binaryMode, ps) == [] <==> ps == []
  {
    if ps != [] {
      NextHeader(binaryMode, ps[0], EncodePayload(binaryMode, ps[1..]));
    }
  }

  lemma CalmUnfolds(binaryMode: bool, s: seq<byte>, h: Header, tail: seq<byte>)
    requires ParseHeader(binaryMode, s) == Ok(h) && h.rest[BodyLength(binaryMode, h)..] == tail
    requires (!binaryMode && h.ft.BinaryFrame?) || !Surges(h.rest, h.n)
    ensures Calm(binaryMode, s) <==> Calm(binaryMode, tail)
  {
  }

  lemma BudgetIsSmall(data: seq<byte>, tail: seq<byte>)
    requires |data + tail| <= TWO_63 / 4
    ensures !Surges(data + tail, TotalUnits(data))
  {
    UnitsBound(data);
    NoSurge(data + tail, TotalUnits(data));
  }

  /** The header of a frame in front of others. */
  lemma FrameHeader(binaryMode: bool, p: Packet, tail: seq<byte>) returns (h: Header)
    requires Fits(binaryMode, p) && Sendable(binaryMode, p, tail == [])
    ensures ParseHeader(binaryMode, EncodePacket(binaryMode, p) + tail) == Ok(h) && h.ft == p.ft
    ensures binaryMode || p.ft.StringFrame? ==> h.n == TotalUnits(p.data) && h.rest == p.data + tail
    ensures |h.rest| <= |EncodePacket(binaryMode, p) + tail|
  {
    var body := WireBody(binaryMode, p);
    HeaderRoundTrip(binaryMode, p, body + tail);
    assert EncodePacket(binaryMode, p) + tail == HeaderText(binaryMode, p) + (body + tail);
    h := ParseHeader(binaryMode, EncodePacket(binaryMode, p) + tail).value;
  }

  lemma FrameIsCalm(binaryMode: bool, p: Packet, tail: seq<byte>)
    requires Fits(binaryMode, p) && Sendable(binaryMode, p, tail == [])
    requires |EncodePacket(binaryMode, p) + tail| <= TWO_63 / 4
    ensures Calm(binaryMode, EncodePacket(binaryMode, p) + tail) <==> Calm(binaryMode, tail)
  {
    var h := FrameHeader(binaryMode, p, tail);
    FrameRoundTrip(binaryMode, p, tail);
    if binaryMode || p.ft.StringFrame? {
      BudgetIsSmall(p.data, tail);
    }
    CalmUnfolds(binaryMode, EncodePacket(binaryMode, p) + tail, h, tail);
  }

  /** What applications send: a packet type of the protocol, and text that is valid UTF-8. */
  ghost predicate Ordinary(p: Packet) {
    p.pt <= NOOP && (p.ft.StringFrame? ==> IsUtf8(p.data))
  }

  ghost predicate IsUtf8(data: seq<byte>) {
    exists text :: Utf8(text) == data
  }

  lemma OrdinarySendable(p: Packet, last: bool)
    requires Ordinary(p)
    ensures Sendable(false, p, last)
  {
    if p.ft.StringFrame? {
      var text :| Utf8(text) == p.data;
      Utf8Recoverable(text);
    }
  }

  /** Text mode carries valid UTF-8 strings and arbitrary binary data. */
  lemma TextModeRoundTrip(ps: seq<Packet>)
    requires ps != [] && forall p :: p in ps ==> Fits(false, p) && Ordinary(p)
    ensures DecodePayload(false, EncodePayload(false, ps)) == (ps, Clean)
  {
    forall i | 0 <= i < |ps|
      ensures Sendable(false, ps[i], i == |ps| - 1)
    {
      assert ps[i] in ps;
      OrdinarySendable(ps[i], i == |ps| - 1);
    }
    PayloadRoundTrip(false, ps);
  }

  /** The NOOP a flush answers with is the encoding of an empty NOOP string packet. */
  function NoopText(binaryMode: bool): seq<byte> {
    if binaryMode then [0x00, 0x01, 0xff, '6' as int] else ['1' as int, ':' as int, '6' as int]
  }

  lemma NoopIsPacket(binaryMode: bool)
    ensures NoopText(binaryMode) == EncodePacket(binaryMode, Packet(StringFrame, NOOP, []))
  {
    assert Digits(1) == [1];
  }
}
