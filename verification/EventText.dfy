/** An event's arguments are one JSON array with the event's name in front. The decoder cuts the name off at the
    first ',' or ']' and hands the rest, with a '[' put before it, to the JSON decoder (parser/decoder.go). */
module EventText {
  import opened Bytes
  import opened PacketHeader

  const CLOSING: byte := ']' as int

  /** JSON texts with commas between them. */
  function Joined(es: seq<seq<byte>>): seq<byte> {
    if es == [] then [] else if |es| == 1 then es[0] else es[0] + [COMMA] + Joined(es[1..])
  }

  function ArrayOf(es: seq<seq<byte>>): seq<byte> { [BRACKET] + Joined(es) + [CLOSING] }

  /** No ',' and no ']' in the text. */
  predicate Unbroken(e: seq<byte>) { COMMA !in e && CLOSING !in e }

  // ---------- reading the name ----------

  predicate Stops(b: byte) { b == COMMA || b == CLOSING }

  function NameLength(s: seq<byte>): (n: nat)
    ensures n <= |s| && Unbroken(s[..n]) && (n < |s| ==> Stops(s[n]))
  {
    if s == [] || Stops(s[0]) then 0 else 1 + NameLength(s[1..])
  }

  /** The text of the name, if the arguments are an array, and what is left behind it; fails at the end of input. */
  datatype Event = Event(name: Option<seq<byte>>, rest: seq<byte>) | Broken

  function ReadEvent(s: seq<byte>): Event {
    if s == [] then Broken
    else if s[0] != BRACKET then Event(None, s)
    else CutName(s[1..])
  }

  /** The name up to its separator; a ',' is taken, a ']' is left. */
  function CutName(s: seq<byte>): Event {
    var n := NameLength(s);
    if n == |s| then Broken else Event(Some(s[..n]), if s[n] == COMMA then s[n + 1..] else s[n..])
  }

  /** What `DecodeArgs` hands to the JSON decoder after an event. */
  function ArgsText(rest: seq<byte>): seq<byte> { [BRACKET] + rest }

  method ReadEventFrom(r: Reader) returns (name: Option<seq<byte>>, ok: bool)
    requires r.Valid()
    modifies r
    ensures r.Valid()
    ensures ReadEvent(old(r.Rest())) == if ok then Event(name, r.Rest()) else Broken
  {
    var b := r.ReadByte();
    if b.None? {
      return None, false;
    }
    if b.value != BRACKET {
      r.UnreadByte();
      return None, true;
    }
    name, ok := CutNameFrom(r);
  }

  method CutNameFrom(r: Reader) returns (name: Option<seq<byte>>, ok: bool)
    requires r.Valid()
    modifies r
    ensures r.Valid()
    ensures CutName(old(r.Rest())) == if ok then Event(name, r.Rest()) else Broken
  {
    var buf: seq<byte> := [];
    var c := r.ReadByte();
    while c.Some? && !Stops(c.value)
      invariant r.Valid() && old(r.pos) + |buf| + (if c.Some? then 1 else 0) == r.pos
      invariant if c.Some? then c.value == r.data[r.pos - 1] else r.pos == |r.data|
      invariant buf == r.data[old(r.pos)..old(r.pos) + |buf|]
      invariant forall k :: old(r.pos) <= k < old(r.pos) + |buf| ==> !Stops(r.data[k])
      decreases |r.data| - r.pos, c.Some?
    {
      buf := buf + [c.value];
      c := r.ReadByte();
    }
    CutAt(r.data, old(r.pos), old(r.pos) + |buf|);
    if c.None? {
      return None, false;
    }
    if c.value == CLOSING {
      r.UnreadByte();
    }
    return Some(buf), true;
  }

  /** What cutting the name at `start` of a stream gives, having seen no separator before `pos`. */
  lemma CutAt(stream: seq<byte>, start: nat, pos: nat)
    requires start <= pos <= |stream| && forall k :: start <= k < pos ==> !Stops(stream[k])
    ensures var e := CutName(stream[start..]);
            && (pos == |stream| ==> e == Broken)
            && (pos < |stream| && stream[pos] == COMMA ==> e == Event(Some(stream[start..pos]), stream[pos + 1..]))
            && (pos < |stream| && stream[pos] == CLOSING ==> e == Event(Some(stream[start..pos]), stream[pos..]))
  {
    var (s, n) := (stream[start..], pos - start);
    assert s[..n] == stream[start..pos] && s[n..] == stream[pos..];
    assert n < |s| ==> s[n + 1..] == stream[pos + 1..];
    NameIs(s, n);
  }

  lemma {:induction false} NameIs(s: seq<byte>, n: nat)
    requires n <= |s| && Unbroken(s[..n])
    ensures n == |s| || Stops(s[n]) ==> NameLength(s) == n
  {
    if n > 0 {
      assert s[..n] == [s[0]] + s[1..][..n - 1];
      NameIs(s[1..], n - 1);
    }
  }

  // ---------- splitting the array ----------

  /** The array's text in front of its first separator. */
  lemma ArraySplits(es: seq<seq<byte>>, tail: seq<byte>)
    requires es != []
    ensures var after := if |es| == 1 then [CLOSING] + tail else [COMMA] + (Joined(es[1..]) + [CLOSING] + tail);
            (ArrayOf(es) + tail)[0] == BRACKET && (ArrayOf(es) + tail)[1..] == es[0] + after
  {
  }

  lemma NameTaken(s: seq<byte>, e: seq<byte>, after: seq<byte>)
    requires s != [] && s[0] == BRACKET && s[1..] == e + after && after != [] && Stops(after[0])
    ensures Unbroken(e) ==> ReadEvent(s) == Event(Some(e), if after[0] == COMMA then after[1..] else after)
    ensures !Unbroken(e) ==> ReadEvent(s).Event? && ReadEvent(s).name != Some(e)
  {
    var t := s[1..];
    assert t[..|e|] == e && t[|e|..] == after && t[|e|] == after[0];
    if Unbroken(e) {
      assert t[0..|e|] == e;
      CutAt(t, 0, |e|);
      assert t[0..] == t && t[|e| + 1..] == after[1..];
    }
  }

  lemma RestOfArray(es: seq<seq<byte>>, tail: seq<byte>)
    ensures ArgsText(Joined(es) + [CLOSING] + tail) == ArrayOf(es) + tail
    ensures ArgsText([CLOSING] + tail) == ArrayOf([]) + tail
  {
  }

  /** The name is the first element, and what the JSON decoder sees is the array of the others: exactly if the
      first element has neither ',' nor ']' in it. */
  lemma EventSplits(es: seq<seq<byte>>, tail: seq<byte>)
    requires es != []
    ensures Unbroken(es[0]) <==>
              var r := ReadEvent(ArrayOf(es) + tail);
              r.Event? && r.name == Some(es[0]) && ArgsText(r.rest) == ArrayOf(es[1..]) + tail
  {
    ArraySplits(es, tail);
    RestOfArray(es[1..], tail);
    if |es| == 1 {
      NameTaken(ArrayOf(es) + tail, es[0], [CLOSING] + tail);
    } else {
      var rest := Joined(es[1..]) + [CLOSING] + tail;
      assert ([COMMA] + rest)[1..] == rest;
      NameTaken(ArrayOf(es) + tail, es[0], [COMMA] + rest);
    }
  }

  // ---------- whole packets ----------

  /** What an event packet is decoded into: the header, the number of attachments, the text of the event's name
      and the text its arguments are decoded from. */
  datatype Decoded = Decoded(header: Header, attachments: uint64, name: seq<byte>, args: seq<byte>) | Failed

  function DecodeEvent(s: seq<byte>): Decoded {
    match DecodeHeader(s)
    case Err(_) => Failed
    case Ok(Read(header, attachments, rest)) =>
      var e := ReadEvent(rest);
      if header.typ != EVENT || e.Broken? || e.name.None? then Failed
      else Decoded(header, attachments, e.name.value, ArgsText(e.rest))
  }

  /** An event packet comes back whole, its name apart from its arguments, exactly if its header is a faithful
      one and the JSON text of its name has neither ',' nor ']' in it. The arguments end in a line break. */
  lemma EventPacketRoundTrip(h: Header, attachments: uint64, name: seq<byte>, args: seq<seq<byte>>)
    requires h.typ == EVENT
    ensures var text := ArrayOf([name] + args) + ['\n' as int];
            var whole := Decoded(h, attachments, name, ArrayOf(args) + ['\n' as int]);
            var decoded := DecodeEvent(PacketText(h, attachments, Args(text)));
            decoded == whole <==> Faithful(h, attachments, Args(text)) && Unbroken(name)
  {
    var text := ArrayOf([name] + args) + ['\n' as int];
    var s := PacketText(h, attachments, Args(text));
    HeaderRoundTrip(h, attachments, Args(text));
    EventSplits([name] + args, ['\n' as int]);
    assert ([name] + args)[1..] == args;
    if DecodeHeader(s).Ok? && DecodeHeader(s).value.header == h && DecodeHeader(s).value.attachments == attachments {
      ReadIsPlain(s);
      ReadBack(h, attachments, Args(text));
    }
  }

  /** A name such as "a,b" is cut in two. */
  lemma CommaBreaksName()
    ensures var name := ['"' as int, 'a' as int, COMMA, 'b' as int, '"' as int];
            ReadEvent(ArrayOf([name])) != Event(Some(name), [CLOSING])
  {
    var name := ['"' as int, 'a' as int, COMMA, 'b' as int, '"' as int];
    EventSplits([name], []);
    assert name[2] == COMMA;
    assert ArrayOf([name]) + [] == ArrayOf([name]) && ArrayOf([name][1..]) + [] == ArgsText([CLOSING]);
  }
}
