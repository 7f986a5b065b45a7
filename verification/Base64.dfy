/** Standard base64 with padding, RFC 4648 section 4, as the text payload wraps binary frames. */
module Base64 {
  import opened Bytes

  type sextet = n: int | 0 <= n < 64

  const PAD: byte := '=' as int

  function Letter(n: sextet): (b: byte)
    ensures Plain(b) && b != PAD
  {
    if n < 26 then 'A' as int + n
    else if n < 52 then 'a' as int + (n - 26)
    else if n < 62 then '0' as int + (n - 52)
    else if n == 62 then '+' as int
    else '/' as int
  }

  /** ASCII and not a line break. */
  predicate Plain(b: byte) { b < 128 && b != '\r' as int && b != '\n' as int }

  function Index(b: byte): Option<sextet> {
    if 'A' as int <= b <= 'Z' as int then Some(b - 'A' as int)
    else if 'a' as int <= b <= 'z' as int then Some(b - 'a' as int + 26)
    else if '0' as int <= b <= '9' as int then Some(b - '0' as int + 52)
    else if b == '+' as int then Some(62)
    else if b == '/' as int then Some(63)
    else None
  }

  lemma LetterIndex(n: sextet)
    ensures Index(Letter(n)) == Some(n)
  {
  }

  // ---------- regrouping bits ----------

  function First(x: byte): sextet { x / 4 }
  function Second(x: byte, y: byte): sextet { x % 4 * 16 + y / 16 }
  function Third(y: byte, z: byte): sextet { y % 16 * 4 + z / 64 }
  function Fourth(z: byte): sextet { z % 64 }

  function High(a: sextet, b: sextet): byte { a * 4 + b / 16 }
  function Middle(b: sextet, c: sextet): byte { b % 16 * 16 + c / 4 }
  function Low(c: sextet, d: sextet): byte { c % 4 * 64 + d }

  lemma RegroupHigh(x: byte, y: byte)
    ensures High(First(x), Second(x, y)) == x
  {
  }

  lemma RegroupMiddle(x: byte, y: byte, z: byte)
    ensures Middle(Second(x, y), Third(y, z)) == y
  {
    assert Second(x, y) % 16 == y / 16;
    assert Third(y, z) / 4 == y % 16;
  }

  lemma RegroupLow(y: byte, z: byte)
    ensures Low(Third(y, z), Fourth(z)) == z
  {
    assert Third(y, z) % 4 == z / 64;
  }

  // ---------- encoding and decoding ----------

  function Encode(d: seq<byte>): (s: seq<byte>)
    ensures forall i :: 0 <= i < |s| ==> Plain(s[i])
  {
    if d == [] then []
    else if |d| == 1 then
      [Letter(First(d[0])), Letter(Second(d[0], 0)), PAD, PAD]
    else if |d| == 2 then
      [Letter(First(d[0])), Letter(Second(d[0], d[1])), Letter(Third(d[1], 0)), PAD]
    else
      [Letter(First(d[0])), Letter(Second(d[0], d[1])), Letter(Third(d[1], d[2])), Letter(Fourth(d[2]))]
      + Encode(d[3..])
  }

  /** One quantum of four letters; padding is allowed in the last one only. */
  function DecodeQuantum(p: byte, q: byte, r: byte, s: byte, last: bool): Option<seq<byte>> {
    match (Index(p), Index(q))
    case (Some(a), Some(b)) =>
      if r == PAD && s == PAD && last then Some([High(a, b)])
      else (match Index(r)
            case None => None
            case Some(c) =>
              if s == PAD && last then Some([High(a, b), Middle(b, c)])
              else match Index(s)
                   case None => None
                   case Some(d) => Some([High(a, b), Middle(b, c), Low(c, d)]))
    case _ => None
  }

  function DecodeQuanta(s: seq<byte>): Option<seq<byte>> {
    if s == [] then Some([])
    else if |s| < 4 then None
    else match DecodeQuantum(s[0], s[1], s[2], s[3], |s| == 4)
         case None => None
         case Some(head) =>
           match DecodeQuanta(s[4..])
           case None => None
           case Some(tail) => Some(head + tail)
  }

  /** Line breaks are skipped before decoding. */
  function Unfold(s: seq<byte>): seq<byte> {
    if s == [] then []
    else if s[0] == '\r' as int || s[0] == '\n' as int then Unfold(s[1..])
    else [s[0]] + Unfold(s[1..])
  }

  function Decode(s: seq<byte>): Option<seq<byte>> {
    DecodeQuanta(Unfold(s))
  }

  // ---------- decoding inverts encoding ----------

  lemma {:induction false} UnfoldPlain(s: seq<byte>)
    requires forall i :: 0 <= i < |s| ==> Plain(s[i])
    ensures Unfold(s) == s
  {
    if s != [] {
      UnfoldPlain(s[1..]);
    }
  }

  lemma Quantum(x: byte, y: byte, z: byte, last: bool)
    ensures DecodeQuantum(Letter(First(x)), Letter(Second(x, y)), Letter(Third(y, z)), Letter(Fourth(z)), last)
         == Some([x, y, z])
    ensures DecodeQuantum(Letter(First(x)), Letter(Second(x, y)), Letter(Third(y, z)), PAD, true) == Some([x, y])
    ensures DecodeQuantum(Letter(First(x)), Letter(Second(x, y)), PAD, PAD, true) == Some([x])
  {
    LetterIndex(First(x));
    LetterIndex(Second(x, y));
    LetterIndex(Third(y, z));
    LetterIndex(Fourth(z));
    RegroupHigh(x, y);
    RegroupMiddle(x, y, z);
    RegroupLow(y, z);
  }

  lemma {:induction false} QuantaRoundTrip(d: seq<byte>)
    ensures DecodeQuanta(Encode(d)) == Some(d)
    decreases |d|
  {
    if |d| == 1 {
      Quantum(d[0], 0, 0, true);
      assert d == [d[0]];
      LastQuantum(Encode(d), d);
    } else if |d| == 2 {
      Quantum(d[0], d[1], 0, true);
      assert d == [d[0], d[1]];
      LastQuantum(Encode(d), d);
    } else if |d| >= 3 {
      QuantaRoundTrip(d[3..]);
      NextQuantum(d);
    }
  }

  lemma LastQuantum(s: seq<byte>, d: seq<byte>)
    requires |s| == 4 && DecodeQuantum(s[0], s[1], s[2], s[3], true) == Some(d)
    ensures DecodeQuanta(s) == Some(d)
  {
    assert s[4..] == [] && d + [] == d;
  }

  lemma NextQuantum(d: seq<byte>)
    requires |d| >= 3 && DecodeQuanta(Encode(d[3..])) == Some(d[3..])
    ensures DecodeQuanta(Encode(d)) == Some(d)
  {
    var s, head := Encode(d), [d[0], d[1], d[2]];
    assert DecodeQuantum(s[0], s[1], s[2], s[3], |s| == 4) == Some(head) by {
      EncodeHead(d);
      Quantum(d[0], d[1], d[2], |s| == 4);
    }
    assert s[4..] == Encode(d[3..]) by { EncodeHead(d); }
    Prepend(s, head, d[3..]);
    HeadTail(d);
  }

  lemma HeadTail(d: seq<byte>)
    requires |d| >= 3
    ensures [d[0], d[1], d[2]] + d[3..] == d
  {
  }

  lemma EncodeHead(d: seq<byte>)
    requires |d| >= 3
    ensures var s := Encode(d);
            && |s| >= 4 && s[4..] == Encode(d[3..])
            && s[0] == Letter(First(d[0])) && s[1] == Letter(Second(d[0], d[1]))
            && s[2] == Letter(Third(d[1], d[2])) && s[3] == Letter(Fourth(d[2]))
  {
  }

  lemma Prepend(s: seq<byte>, head: seq<byte>, tail: seq<byte>)
    requires |s| >= 4 && DecodeQuantum(s[0], s[1], s[2], s[3], |s| == 4) == Some(head)
    requires DecodeQuanta(s[4..]) == Some(tail)
    ensures DecodeQuanta(s) == Some(head + tail)
  {
  }

  /** Decoding is the inverse of encoding on every byte string. */
  lemma RoundTrip(d: seq<byte>)
    ensures Decode(Encode(d)) == Some(d)
  {
    UnfoldPlain(Encode(d));
    QuantaRoundTrip(d);
  }
}
