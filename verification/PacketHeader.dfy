/** The text header of a Socket.IO packet (parser/encoder.go, parser/decoder.go): a type digit, the number of
    attachments and '-', a namespace and ',', an ack id, and then the arguments. */
module PacketHeader {
  import opened Bytes
  import opened Numerals

  const CONNECT: byte := 0
  const DISCONNECT: byte := 1
  const EVENT: byte := 2
  const ACK: byte := 3
  const ERROR: byte := 4
  const BINARY_EVENT: byte := 5
  const BINARY_ACK: byte := 6

  const ZERO: byte := '0' as int
  const DASH: byte := '-' as int
  const COMMA: byte := ',' as int
  const SLASH: byte := '/' as int
  const QUERY: byte := '?' as int
  const BRACKET: byte := '[' as int

  datatype Header = Header(typ: byte, id: uint64, needAck: bool, namespace: seq<byte>, query: seq<byte>)

  /** A header before anything has been read into it. */
  const BLANK: Header := Header(0, 0, false, [], [])

  /** The arguments: none at all (a nil slice), or a slice whose first element, if any, is written as JSON. */
  datatype Args = NoArgs | Args(text: seq<byte>) {
    function Text(): seq<byte> { if NoArgs? then [] else text }
  }

  datatype HeaderError = EndOfFile | InvalidPacketType

  // ---------- writing ----------

  /** A packet with attachments travels under a type of its own, if it is an event or an ack. */
  function WireType(typ: byte, attachments: uint64): byte {
    if attachments > 0 && (typ == EVENT || typ == ACK) then typ + 3 else typ
  }

  function CountText(typ: byte, attachments: uint64): seq<byte> {
    if typ == BINARY_EVENT || typ == BINARY_ACK then NumberText(attachments) + [DASH] else []
  }

  function NamespaceText(h: Header, args: Args): seq<byte> {
    if h.namespace == [] then [] else h.namespace + if h.id != 0 || args.Args? then [COMMA] else []
  }

  function IdText(h: Header): seq<byte> { if h.needAck then NumberText(h.id) else [] }

  function PacketText(h: Header, attachments: uint64, args: Args): seq<byte> {
    var typ := WireType(h.typ, attachments);
    [(typ + ZERO) % 256] + (CountText(typ, attachments) + (NamespaceText(h, args) + (IdText(h) + args.Text())))
  }

  method WriteCount(w: Buffer, typ: byte, attachments: uint64)
    modifies w
    ensures w.data == old(w.data) + CountText(typ, attachments)
  {
    if typ == BINARY_EVENT || typ == BINARY_ACK {
      WriteUint64(w, attachments);
      w.WriteByte(DASH);
    }
  }

  method WriteNamespace(w: Buffer, h: Header, args: Args)
    modifies w
    ensures w.data == old(w.data) + NamespaceText(h, args)
  {
    if h.namespace != [] {
      w.Write(h.namespace);
      if h.id != 0 || args.Args? {
        w.WriteByte(COMMA);
      }
    }
  }

  method WriteBody(w: Buffer, h: Header, args: Args)
    modifies w
    ensures w.data == old(w.data) + (NamespaceText(h, args) + (IdText(h) + args.Text()))
  {
    WriteNamespace(w, h, args);
    ghost var named := w.data;
    if h.needAck {
      WriteUint64(w, h.id);
    }
    assert w.data == named + IdText(h);
    w.Write(args.Text());
    Assoc(named, IdText(h), args.Text());
    Assoc(old(w.data), NamespaceText(h, args), IdText(h) + args.Text());
  }

  method WritePacket(w: Buffer, h: Header, attachments: uint64, args: Args)
    modifies w
    ensures w.data == old(w.data) + PacketText(h, attachments, args)
  {
    var typ := h.typ;
    if attachments > 0 && (typ == EVENT || typ == ACK) {
      typ := typ + 3;
    }
    w.WriteByte((typ + ZERO) % 256);
    WriteCount(w, typ, attachments);
    WriteBody(w, h, args);
    Assemble(old(w.data), h, attachments, args);
  }

  lemma Assemble(before: seq<byte>, h: Header, n: uint64, args: Args)
    ensures before + [(WireType(h.typ, n) + ZERO) % 256] + CountText(WireType(h.typ, n), n)
              + (NamespaceText(h, args) + (IdText(h) + args.Text()))
         == before + PacketText(h, n, args)
  {
    var (typ, body) := (WireType(h.typ, n), NamespaceText(h, args) + (IdText(h) + args.Text()));
    Assoc(before + [(typ + ZERO) % 256], CountText(typ, n), body);
    Assoc(before, [(typ + ZERO) % 256], CountText(typ, n) + body);
  }

  lemma Assoc(a: seq<byte>, b: seq<byte>, c: seq<byte>)
    ensures (a + b) + c == a + (b + c)
  {
  }

  // ---------- reading ----------

  function IndexOf(s: seq<byte>, b: byte): (n: nat)
    ensures n <= |s|
  {
    if s == [] || s[0] == b then 0 else 1 + IndexOf(s[1..], b)
  }

  lemma {:induction false} IndexOfFirst(s: seq<byte>, b: byte)
    ensures var n := IndexOf(s, b); b !in s[..n] && (n < |s| ==> s[n] == b)
  {
    if s != [] && s[0] != b {
      IndexOfFirst(s[1..], b);
      var n := IndexOf(s[1..], b);
      assert s[..n + 1] == [s[0]] + s[1..][..n];
    }
  }

  /** `readString`: the bytes before `until`, and what follows it. Fails only if nothing is there. */
  function ReadString(s: seq<byte>, until: byte): (seq<byte>, seq<byte>) {
    var n := IndexOf(s, until);
    (s[..n], if n < |s| then s[n + 1..] else [])
  }

  datatype Read = Read(header: Header, attachments: uint64, rest: seq<byte>)

  /** The namespace and, behind '?', its query. */
  function SplitQuery(h: Header, text: seq<byte>): Header {
    var n := IndexOf(text, QUERY);
    if n == |text| then h.(namespace := text) else h.(namespace := text[..n], query := text[n + 1..])
  }

  function HasDigit(s: seq<byte>): bool { s != [] && Spelling.Text.IsDigit(s[0]) }

  /** The ack id at its own place, or else the number that stood before. */
  function ReadId(h: Header, attachments: uint64, num: uint64, hasNum: bool, s: seq<byte>): Read {
    var (id, rest) := ReadDigits(s, 0);
    if s == [] then Read(h.(id := 0, needAck := false), attachments, [])
    else if HasDigit(s) then Read(h.(id := id, needAck := true), attachments, rest)
    else Read(h.(id := num, needAck := hasNum), attachments, rest)
  }

  function ReadNamespace(h: Header, attachments: uint64, num: uint64, hasNum: bool, s: seq<byte>): Read {
    if s == [] then Read(h, attachments, [])
    else if s[0] == SLASH then
      var (text, rest) := ReadString(s, COMMA);
      ReadId(SplitQuery(h, text), attachments, num, hasNum, rest)
    else ReadId(h, attachments, num, hasNum, s)
  }

  /** A number first: with '-' behind it, it is the number of attachments; otherwise it may turn out to be the id. */
  function ReadCount(h: Header, s: seq<byte>): Read {
    if s == [] then Read(h, 0, [])
    else
      var (num, rest) := ReadDigits(s, 0);
      if rest == [] then Read(h.(id := num, needAck := HasDigit(s)), 0, [])
      else if rest[0] == DASH then ReadNamespace(h, num, 0, false, rest[1..])
      else ReadNamespace(h, 0, num, HasDigit(s), rest)
  }

  function ReadHeader(s: seq<byte>): Result<Read, HeaderError> {
    if s == [] then Err(EndOfFile)
    else if (s[0] - ZERO) % 256 > BINARY_ACK then Err(InvalidPacketType)
    else Ok(ReadCount(BLANK.(typ := (s[0] - ZERO) % 256), s[1..]))
  }

  /** `DecodeHeader`: the binary types become the plain ones again. */
  function DecodeHeader(s: seq<byte>): Result<Read, HeaderError> {
    match ReadHeader(s)
    case Err(e) => Err(e)
    case Ok(r) =>
      if r.header.typ == BINARY_EVENT || r.header.typ == BINARY_ACK
      then Ok(r.(header := r.header.(typ := r.header.typ - 3)))
      else Ok(r)
  }

  method ReadStringFrom(r: Reader, until: byte) returns (text: seq<byte>)
    requires r.Valid() && r.Rest() != []
    modifies r
    ensures r.Valid() && (text, r.Rest()) == ReadString(old(r.Rest()), until)
  {
    ghost var s := r.Rest();
    text := [];
    while true
      invariant r.Valid() && |text| <= |s| && text == s[..|text|] && r.Rest() == s[|text|..] && until !in text
      decreases |r.data| - r.pos
    {
      var b := r.ReadByte();
      IndexIs(s, until, |text|);
      if b.None? || b.value == until {
        return;
      }
      text := text + [b.value];
    }
  }

  lemma {:induction false} IndexIs(s: seq<byte>, b: byte, n: nat)
    requires n <= |s| && b !in s[..n]
    ensures n == |s| || s[n] == b ==> IndexOf(s, b) == n
  {
    if n > 0 {
      assert s[..n] == [s[0]] + s[1..][..n - 1];
      IndexIs(s[1..], b, n - 1);
    }
  }

  method ReadTypeFrom(r: Reader) returns (res: Result<byte, HeaderError>)
    requires r.Valid()
    modifies r
    ensures r.Valid()
    ensures res == if old(r.Rest()) == [] then Err(EndOfFile)
                   else if (old(r.Rest())[0] - ZERO) % 256 > BINARY_ACK then Err(InvalidPacketType)
                   else Ok((old(r.Rest())[0] - ZERO) % 256)
    ensures res.Ok? ==> r.Rest() == old(r.Rest())[1..]
  {
    var typ := r.ReadByte();
    if typ.None? {
      return Err(EndOfFile);
    }
    var t: byte := (typ.value - ZERO) % 256;
    res := if t > BINARY_ACK then Err(InvalidPacketType) else Ok(t);
  }

  /** `readHeader` with one byte of look-ahead, put back where it was not the one looked for. */
  method ReadHeaderFrom(r: Reader) returns (res: Result<(Header, uint64), HeaderError>)
    requires r.Valid()
    modifies r
    ensures r.Valid()
    ensures res.Ok? ==> ReadHeader(old(r.Rest())) == Ok(Read(res.value.0, res.value.1, r.Rest()))
    ensures res.Err? ==> ReadHeader(old(r.Rest())) == Err(res.error)
  {
    var typ := ReadTypeFrom(r);
    if typ.Err? {
      return Err(typ.error);
    }
    var header, attachments := ReadCountFrom(r, BLANK.(typ := typ.value));
    res := Ok((header, attachments));
  }

  method ReadCountFrom(r: Reader, h: Header) returns (header: Header, attachments: uint64)
    requires r.Valid()
    modifies r
    ensures r.Valid() && Read(header, attachments, r.Rest()) == ReadCount(h, old(r.Rest()))
  {
    header, attachments := h, 0;
    var num, hasNum, eof := ReadUint64FromText(r);
    if eof {
      return;
    }
    var next := r.ReadByte();
    if next.None? {
      return header.(id := num, needAck := hasNum), 0;
    }
    if next.value == DASH {
      attachments, num, hasNum := num, 0, false;
    } else {
      r.UnreadByte();
    }
    header := ReadNamespaceFrom(r, header, attachments, num, hasNum);
  }

  method ReadNamespaceFrom(r: Reader, h: Header, ghost attachments: uint64, num: uint64, hasNum: bool)
      returns (header: Header)
    requires r.Valid()
    modifies r
    ensures r.Valid()
    ensures Read(header, attachments, r.Rest()) == ReadNamespace(h, attachments, num, hasNum, old(r.Rest()))
  {
    header := h;
    var next := r.ReadByte();
    if next.None? {
      return;
    }
    r.UnreadByte();
    if next.value == SLASH {
      var text := ReadStringFrom(r, COMMA);
      header := SplitQuery(header, text);
    }
    var id, needAck, eof := ReadUint64FromText(r);
    header := header.(id := id, needAck := needAck);
    if !eof && !needAck {
      header := header.(id := num, needAck := hasNum);
    }
  }

  // ---------- the round trip ----------

  /** Reading a packet's text gives back its header and attachment count, and leaves the arguments. */
  predicate RoundTrips(h: Header, attachments: uint64, args: Args) {
    DecodeHeader(PacketText(h, attachments, args)) == Ok(Read(h, attachments, args.Text()))
  }

  /** The arguments are a JSON array, if they are written at all. */
  predicate ArrayText(args: Args) {
    args.Args? && args.text != [] ==> args.text[0] == BRACKET
  }

  /** A namespace that reads back as itself. */
  predicate PlainNamespace(ns: seq<byte>) {
    ns == [] || (ns[0] == SLASH && COMMA !in ns && QUERY !in ns)
  }

  /** What a header has to be like: a type that is not one of the internal binary ones, attachments only for
      events and acks, a plain namespace and no query (which is not written), an id only with an ack to wait for,
      and behind a namespace something that makes the writer put the ',' in front of the id. */
  predicate Faithful(h: Header, attachments: uint64, args: Args) {
    && h.typ <= ERROR && (attachments > 0 ==> h.typ == EVENT || h.typ == ACK)
    && PlainNamespace(h.namespace) && h.query == []
    && (h.id != 0 ==> h.needAck)
    && (h.namespace != [] && h.needAck ==> h.id != 0 || args.Args?)
  }

  lemma SplitIsPlain(h: Header, text: seq<byte>)
    requires text != [] && text[0] == SLASH && COMMA !in text
    ensures PlainNamespace(SplitQuery(h, text).namespace) && SplitQuery(h, text).typ == h.typ
  {
    IndexOfFirst(text, QUERY);
    var n := IndexOf(text, QUERY);
    assert n > 0 && text[..n][0] == SLASH;
    assert COMMA in text[..n] ==> COMMA in text;
    assert text[..|text|] == text;
  }

  lemma NamespaceIsPlain(h: Header, att: uint64, num: uint64, hasNum: bool, s: seq<byte>)
    requires h.namespace == []
    ensures PlainNamespace(ReadNamespace(h, att, num, hasNum, s).header.namespace)
    ensures ReadNamespace(h, att, num, hasNum, s).header.typ == h.typ
  {
    if s != [] && s[0] == SLASH {
      IndexOfFirst(s, COMMA);
      assert s[..IndexOf(s, COMMA)][0] == SLASH;
      SplitIsPlain(h, ReadString(s, COMMA).0);
    }
  }

  lemma CountIsPlain(h: Header, s: seq<byte>)
    requires h.namespace == []
    ensures PlainNamespace(ReadCount(h, s).header.namespace) && ReadCount(h, s).header.typ == h.typ
  {
    var (num, rest) := ReadDigits(s, 0);
    if s != [] && rest != [] {
      NamespaceIsPlain(h, num, 0, false, rest[1..]);
      NamespaceIsPlain(h, 0, num, HasDigit(s), rest);
    }
  }

  /** Whatever is read, the namespace is a plain one and the type is none of the internal ones. */
  lemma ReadIsPlain(s: seq<byte>)
    requires DecodeHeader(s).Ok?
    ensures PlainNamespace(DecodeHeader(s).value.header.namespace)
    ensures DecodeHeader(s).value.header.typ <= ERROR
  {
    CountIsPlain(BLANK.(typ := (s[0] - ZERO) % 256), s[1..]);
  }

  lemma ReadStringUpTo(ns: seq<byte>, tail: seq<byte>, until: byte)
    requires until !in ns
    ensures ReadString(ns, until) == (ns, [])
    ensures ReadString(ns + [until] + tail, until) == (ns, tail)
  {
    assert ns[..|ns|] == ns;
    IndexIs(ns, until, |ns|);
    var s := ns + [until] + tail;
    assert s[..|ns|] == ns && s[|ns| + 1..] == tail;
    IndexIs(s, until, |ns|);
  }

  lemma PlainSplits(h: Header, ns: seq<byte>)
    requires QUERY !in ns
    ensures SplitQuery(h, ns) == h.(namespace := ns)
  {
    IndexIs(ns, QUERY, |ns|);
  }

  /** The header fields the text can carry. */
  function Carried(h: Header): Header { h.(id := if h.needAck then h.id else 0, query := []) }

  /** The text of an id is read as that id, up to the arguments; without an ack to wait for there is none. */
  ghost predicate IdReads(idText: seq<byte>, h: Header, args: Args) {
    if !h.needAck then idText == []
    else
      && idText != [] && (forall k :: 0 <= k < |idText| ==> Spelling.Text.IsDigit(idText[k]))
      && ReadDigits(idText + args.Text(), 0) == (h.id, args.Text())
  }

  lemma IdTextReads(h: Header, args: Args)
    requires ArrayText(args)
    ensures IdReads(IdText(h), h, args)
  {
    if h.needAck {
      NumberRoundTrip(h.id, args.Text());
      NumberIsDigits(h.id);
    }
  }

  lemma ReadIdBack(h: Header, att: uint64, b: Header, args: Args, idText: seq<byte>)
    requires ArrayText(args) && IdReads(idText, h, args)
    ensures ReadId(b, att, 0, false, idText + args.Text())
         == Read(b.(id := if h.needAck then h.id else 0, needAck := h.needAck), att, args.Text())
    ensures h.needAck ==> HasDigit(idText + args.Text())
  {
    if h.needAck {
      assert (idText + args.Text())[0] == idText[0];
    } else {
      assert idText + args.Text() == args.Text();
    }
  }

  /** What stands behind the attachment count. */
  function BodyText(h: Header, args: Args, idText: seq<byte>): seq<byte> {
    NamespaceText(h, args) + (idText + args.Text())
  }

  /** An id behind a namespace that the writer puts no ',' behind. */
  predicate IsSwallowed(h: Header, args: Args) { h.namespace != [] && h.needAck && h.id == 0 && args.NoArgs? }

  /** What has been read of a body is all of the header but its type. */
  predicate BodyReads(h: Header, att: uint64, typ: byte, args: Args, r: Read) {
    if IsSwallowed(h, args) then r.header.namespace != h.namespace && r.header.typ == typ
    else r == Read(Carried(h).(typ := typ), att, args.Text())
  }

  /** Reading from the namespace on, nothing having been read as a number before. */
  lemma ReadNamed(h: Header, att: uint64, typ: byte, args: Args, idText: seq<byte>)
    requires ArrayText(args) && PlainNamespace(h.namespace) && h.namespace != [] && IdReads(idText, h, args)
    ensures BodyText(h, args, idText) != [] && BodyText(h, args, idText)[0] == SLASH
    ensures BodyReads(h, att, typ, args, ReadNamespace(BLANK.(typ := typ), att, 0, false, BodyText(h, args, idText)))
  {
    var (ns, tail, b) := (h.namespace, idText + args.Text(), BLANK.(typ := typ));
    PlainSplits(b, ns);
    if h.id != 0 || args.Args? {
      assert NamespaceText(h, args) + tail == ns + [COMMA] + tail;
      ReadStringUpTo(ns, tail, COMMA);
      ReadIdBack(h, att, b.(namespace := ns), args, idText);
    } else if !h.needAck {
      assert NamespaceText(h, args) + tail == ns;
      ReadStringUpTo(ns, [], COMMA);
    } else {
      assert NamespaceText(h, args) + tail == ns + idText;
      IdReadAsName(b, att, ns, idText);
    }
  }

  /** Digits right behind a namespace are taken for a part of it. */
  lemma IdReadAsName(b: Header, att: uint64, ns: seq<byte>, digits: seq<byte>)
    requires PlainNamespace(ns) && ns != [] && digits != []
    requires forall k :: 0 <= k < |digits| ==> Spelling.Text.IsDigit(digits[k])
    ensures ReadNamespace(b, att, 0, false, ns + digits).header
         == b.(namespace := ns + digits, id := 0, needAck := false)
  {
    var s := ns + digits;
    assert COMMA !in s && QUERY !in s;
    ReadStringUpTo(s, [], COMMA);
    PlainSplits(b, s);
  }

  lemma ReadRoot(h: Header, att: uint64, typ: byte, args: Args, idText: seq<byte>)
    requires ArrayText(args) && h.namespace == [] && IdReads(idText, h, args)
    ensures BodyReads(h, att, typ, args, ReadNamespace(BLANK.(typ := typ), att, 0, false, BodyText(h, args, idText)))
  {
    assert BodyText(h, args, idText) == idText + args.Text();
    ReadIdBack(h, att, BLANK.(typ := typ), args, idText);
  }

  lemma ReadBody(h: Header, att: uint64, typ: byte, args: Args, idText: seq<byte>)
    requires ArrayText(args) && PlainNamespace(h.namespace) && IdReads(idText, h, args)
    ensures BodyReads(h, att, typ, args, ReadNamespace(BLANK.(typ := typ), att, 0, false, BodyText(h, args, idText)))
  {
    if h.namespace == [] {
      ReadRoot(h, att, typ, args, idText);
    } else {
      ReadNamed(h, att, typ, args, idText);
    }
  }

  /** The type digit is read back. */
  lemma ReadType(typ: byte, text: seq<byte>)
    requires typ <= BINARY_ACK
    ensures ReadHeader([(typ + ZERO) % 256] + text) == Ok(ReadCount(BLANK.(typ := typ), text))
  {
    var s := [(typ + ZERO) % 256] + text;
    assert s[0] == typ + ZERO && s[1..] == text;
  }

  /** With attachments: their number and '-' come first, so the id cannot be mistaken for it. */
  lemma ReadCounted(b: Header, n: uint64, digits: seq<byte>, body: seq<byte>)
    requires digits != [] && ReadDigits(digits + ([DASH] + body), 0) == (n, [DASH] + body)
    ensures ReadCount(b, digits + [DASH] + body) == ReadNamespace(b, n, 0, false, body)
  {
    var rest := [DASH] + body;
    assert digits + [DASH] + body == digits + rest && rest[1..] == body;
  }

  /** Without attachments and with a namespace: no number in front of it. */
  lemma ReadUncounted(b: Header, body: seq<byte>)
    requires body != [] && body[0] == SLASH
    ensures ReadCount(b, body) == ReadNamespace(b, 0, 0, false, body)
  {
    assert ReadDigits(body, 0) == (0, body);
  }

  /** Without either: the id is read where the number of attachments could stand, and put in its place. */
  lemma ReadBare(h: Header, b: Header, args: Args, idText: seq<byte>)
    requires ArrayText(args) && b.id == 0 && !b.needAck && IdReads(idText, h, args)
    ensures ReadCount(b, idText + args.Text())
         == Read(b.(id := if h.needAck then h.id else 0, needAck := h.needAck), 0, args.Text())
  {
    var body := idText + args.Text();
    if h.needAck {
      assert body[0] == idText[0];
    } else {
      assert body == args.Text();
    }
  }

  /** The packet travels with an attachment count. */
  predicate IsCounted(h: Header, n: uint64) { n > 0 && (h.typ == EVENT || h.typ == ACK) }

  predicate ReadsBack(h: Header, n: uint64, args: Args, r: Result<Read, HeaderError>) {
    r.Ok? && if IsSwallowed(h, args) then r.value.header.namespace != h.namespace
             else r.value == Read(Carried(h), if IsCounted(h, n) then n else 0, args.Text())
  }

  /** The type is turned back into the plain one. */
  lemma DecodeReads(h: Header, n: uint64, typ: byte, args: Args, s: seq<byte>, r: Read)
    requires ReadHeader(s) == Ok(r) && BodyReads(h, if IsCounted(h, n) then n else 0, typ, args, r)
    requires h.typ <= ERROR && typ == WireType(h.typ, n)
    ensures ReadsBack(h, n, args, DecodeHeader(s))
  {
  }

  lemma CountedHeader(typ: byte, n: uint64, digits: seq<byte>, body: seq<byte>)
    requires typ <= BINARY_ACK && digits != [] && ReadDigits(digits + ([DASH] + body), 0) == (n, [DASH] + body)
    ensures ReadHeader([(typ + ZERO) % 256] + (digits + [DASH] + body))
         == Ok(ReadNamespace(BLANK.(typ := typ), n, 0, false, body))
  {
    ReadType(typ, digits + [DASH] + body);
    ReadCounted(BLANK.(typ := typ), n, digits, body);
  }

  lemma CountedRead(h: Header, n: uint64, typ: byte, args: Args, digits: seq<byte>, idText: seq<byte>, body: seq<byte>)
      returns (r: Read)
    requires ArrayText(args) && PlainNamespace(h.namespace) && IdReads(idText, h, args)
    requires body == BodyText(h, args, idText)
    requires typ <= BINARY_ACK && digits != [] && ReadDigits(digits + ([DASH] + body), 0) == (n, [DASH] + body)
    ensures ReadHeader([(typ + ZERO) % 256] + (digits + [DASH] + body)) == Ok(r) && BodyReads(h, n, typ, args, r)
  {
    CountedHeader(typ, n, digits, body);
    ReadBody(h, n, typ, args, idText);
    r := ReadNamespace(BLANK.(typ := typ), n, 0, false, body);
  }

  lemma ReadBackCounted(h: Header, n: uint64, args: Args, digits: seq<byte>, idText: seq<byte>, body: seq<byte>)
    requires ArrayText(args) && PlainNamespace(h.namespace) && IsCounted(h, n) && IdReads(idText, h, args)
    requires body == BodyText(h, args, idText)
    requires digits != [] && ReadDigits(digits + ([DASH] + body), 0) == (n, [DASH] + body)
    ensures ReadsBack(h, n, args, DecodeHeader([(h.typ + 3 + ZERO) % 256] + (digits + [DASH] + body)))
  {
    var r := CountedRead(h, n, h.typ + 3, args, digits, idText, body);
    DecodeReads(h, n, h.typ + 3, args, [(h.typ + 3 + ZERO) % 256] + (digits + [DASH] + body), r);
  }

  lemma ReadBackBare(h: Header, n: uint64, args: Args, idText: seq<byte>, body: seq<byte>)
    requires ArrayText(args) && h.typ <= ERROR && h.namespace == [] && !IsCounted(h, n) && IdReads(idText, h, args)
    requires body == idText + args.Text()
    ensures ReadsBack(h, n, args, DecodeHeader([(h.typ + ZERO) % 256] + body))
  {
    ReadType(h.typ, body);
    ReadBare(h, BLANK.(typ := h.typ), args, idText);
    DecodeReads(h, n, h.typ, args, [(h.typ + ZERO) % 256] + body, Read(Carried(h), 0, args.Text()));
  }

  lemma NamedHeader(typ: byte, body: seq<byte>)
    requires typ <= BINARY_ACK && body != [] && body[0] == SLASH
    ensures ReadHeader([(typ + ZERO) % 256] + body) == Ok(ReadNamespace(BLANK.(typ := typ), 0, 0, false, body))
  {
    ReadType(typ, body);
    ReadUncounted(BLANK.(typ := typ), body);
  }

  lemma NamedRead(h: Header, typ: byte, args: Args, idText: seq<byte>, body: seq<byte>) returns (r: Read)
    requires ArrayText(args) && PlainNamespace(h.namespace) && h.namespace != []
    requires typ <= BINARY_ACK && IdReads(idText, h, args) && body == BodyText(h, args, idText)
    ensures ReadHeader([(typ + ZERO) % 256] + body) == Ok(r) && BodyReads(h, 0, typ, args, r)
  {
    ReadNamed(h, 0, typ, args, idText);
    NamedHeader(typ, body);
    r := ReadNamespace(BLANK.(typ := typ), 0, 0, false, body);
  }

  lemma ReadBackNamed(h: Header, n: uint64, args: Args, idText: seq<byte>, body: seq<byte>)
    requires ArrayText(args) && h.typ <= ERROR && PlainNamespace(h.namespace) && h.namespace != []
    requires !IsCounted(h, n) && IdReads(idText, h, args) && body == BodyText(h, args, idText)
    ensures ReadsBack(h, n, args, DecodeHeader([(h.typ + ZERO) % 256] + body))
  {
    var r := NamedRead(h, h.typ, args, idText, body);
    DecodeReads(h, n, h.typ, args, [(h.typ + ZERO) % 256] + body, r);
  }

  /** The text of a packet, with and without attachments. */
  lemma PacketTextIs(h: Header, n: uint64, args: Args, digits: seq<byte>, idText: seq<byte>, body: seq<byte>)
    requires digits == NumberText(n) && idText == IdText(h) && body == BodyText(h, args, idText) && h.typ <= ERROR
    ensures IsCounted(h, n) ==> PacketText(h, n, args) == [(h.typ + 3 + ZERO) % 256] + (digits + [DASH] + body)
    ensures !IsCounted(h, n) ==> PacketText(h, n, args) == [(h.typ + ZERO) % 256] + body
  {
    if !IsCounted(h, n) {
      assert CountText(h.typ, n) + body == body;
    }
  }

  lemma ReadBackText(h: Header, n: uint64, args: Args,
          digits: seq<byte>, idText: seq<byte>, body: seq<byte>, text: seq<byte>)
    requires ArrayText(args) && h.typ <= ERROR && PlainNamespace(h.namespace) && IdReads(idText, h, args)
    requires body == BodyText(h, args, idText)
    requires digits != [] && ReadDigits(digits + ([DASH] + body), 0) == (n, [DASH] + body)
    requires IsCounted(h, n) ==> text == [(h.typ + 3 + ZERO) % 256] + (digits + [DASH] + body)
    requires !IsCounted(h, n) ==> text == [(h.typ + ZERO) % 256] + body
    ensures ReadsBack(h, n, args, DecodeHeader(text))
  {
    if IsCounted(h, n) {
      ReadBackCounted(h, n, args, digits, idText, body);
    } else if h.namespace == [] {
      assert body == idText + args.Text();
      ReadBackBare(h, n, args, idText, body);
    } else {
      ReadBackNamed(h, n, args, idText, body);
    }
  }

  /** What reading a packet gives, for any header with a type of its own and a plain namespace. */
  lemma ReadBack(h: Header, n: uint64, args: Args)
    requires ArrayText(args) && h.typ <= ERROR && PlainNamespace(h.namespace)
    ensures ReadsBack(h, n, args, DecodeHeader(PacketText(h, n, args)))
  {
    var (digits, idText) := (NumberText(n), IdText(h));
    var body := BodyText(h, args, idText);
    IdTextReads(h, args);
    NumberRoundTrip(n, [DASH] + body);
    PacketTextIs(h, n, args, digits, idText, body);
    ReadBackText(h, n, args, digits, idText, body, PacketText(h, n, args));
  }

  lemma FaithfulMeans(h: Header, n: uint64, args: Args, r: Result<Read, HeaderError>)
    requires r.Ok? ==> PlainNamespace(r.value.header.namespace) && r.value.header.typ <= ERROR
    requires h.typ <= ERROR && PlainNamespace(h.namespace) ==> ReadsBack(h, n, args, r)
    ensures r == Ok(Read(h, n, args.Text())) <==> Faithful(h, n, args)
  {
  }

  /** The header round trip, exactly. */
  lemma HeaderRoundTrip(h: Header, attachments: uint64, args: Args)
    requires ArrayText(args)
    ensures RoundTrips(h, attachments, args) <==> Faithful(h, attachments, args)
  {
    var r := DecodeHeader(PacketText(h, attachments, args));
    if r.Ok? {
      ReadIsPlain(PacketText(h, attachments, args));
    }
    if h.typ <= ERROR && PlainNamespace(h.namespace) {
      ReadBack(h, attachments, args);
    }
    FaithfulMeans(h, attachments, args, r);
  }

  /** Such as an ack id 0 behind a namespace, with nothing after it: it is read as a part of the name. */
  lemma IdIsSwallowed()
    ensures !RoundTrips(Header(EVENT, 0, true, [SLASH, 'a' as int], []), 0, NoArgs)
  {
    HeaderRoundTrip(Header(EVENT, 0, true, [SLASH, 'a' as int], []), 0, NoArgs);
  }
}
