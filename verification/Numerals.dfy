/** Decimal length fields of the polling payload (engineio/payload/util.go) and the
    unsigned numbers of the packet header (parser/encoder.go, parser/decoder.go). */
module Numerals {
  import opened Bytes

  /** The two spellings of a length: ASCII digits closed by ':', raw digits closed by 0xff. */
  datatype Spelling = Text | Binary {
    function Zero(): byte { if Text? then '0' as int else 0 }
    function Terminator(): byte { if Text? then ':' as int else 0xff }
    predicate IsDigit(b: byte) { Zero() <= b <= Zero() + 9 }
  }

  datatype ReadError = EOF | InvalidPayload

  // ---------- digit strings ----------

  type digit = d: int | 0 <= d < 10

  /** The number obtained by pushing the digits `ds` behind `acc`, most significant first. */
  function Push(acc: nat, ds: seq<digit>): (n: nat)
    ensures n >= acc
    decreases |ds|
  {
    if ds == [] then acc else Push(acc * 10 + ds[0], ds[1..])
  }

  lemma {:induction false} PushAppend(acc: nat, ds: seq<digit>, d: digit)
    ensures Push(acc, ds + [d]) == Push(acc, ds) * 10 + d
    decreases |ds|
  {
    if ds == [] {
      assert [d][1..] == [];
    } else {
      PushAppend(acc * 10 + ds[0], ds[1..], d);
      assert (ds + [d])[1..] == ds[1..] + [d];
    }
  }

  /** The digits of `n`, most significant first, without leading zeros. */
  function Digits(n: nat): (ds: seq<digit>)
    ensures |ds| > 0
  {
    if n < 10 then [n] else Digits(n / 10) + [n % 10]
  }

  lemma {:induction false} PushDigits(n: nat)
    ensures Push(0, Digits(n)) == n
  {
    if n >= 10 {
      PushDigits(n / 10);
      PushAppend(0, Digits(n / 10), n % 10);
    }
  }

  predicate Canonical(ds: seq<digit>) {
    |ds| > 0 && (|ds| > 1 ==> ds[0] != 0)
  }

  /** A number has only one spelling without leading zeros. */
  lemma {:induction false} CanonicalUnique(ds: seq<digit>)
    requires Canonical(ds)
    ensures Digits(Push(0, ds)) == ds
    decreases |ds|
  {
    var n := |ds| - 1;
    var front, last := ds[..n], ds[n];
    assert ds == front + [last];
    PushAppend(0, front, last);
    if n > 0 {
      CanonicalUnique(front);
      PushPositive(front);
    }
  }

  lemma PushPositive(ds: seq<digit>)
    requires |ds| > 0 && ds[0] != 0
    ensures Push(0, ds) > 0
  {
  }

  /** The digits as bytes, shifted by the byte that stands for zero. */
  function Shifted(ds: seq<digit>, zero: byte): (s: seq<byte>)
    requires zero <= 246
    ensures |s| == |ds|
    ensures forall i :: 0 <= i < |s| ==> s[i] == zero + ds[i]
  {
    seq(|ds|, i requires 0 <= i < |ds| => zero + ds[i])
  }

  // ---------- length fields ----------

  /** What the length writers put on the wire. */
  function LenText(sp: Spelling, l: int): (s: seq<byte>)
    ensures |s| >= 2
  {
    Shifted(Digits(if l <= 0 then 0 else l), sp.Zero()) + [sp.Terminator()]
  }

  /** What the length readers make of a byte stream: the number, wrapped to 64 bits
      as the accumulator is, and the bytes left behind the terminator. */
  function ReadLen(sp: Spelling, s: seq<byte>, acc: int64): (r: Result<(int64, seq<byte>), ReadError>)
    ensures r.Ok? ==> |r.value.1| < |s|
    decreases |s|
  {
    if s == [] then Err(EOF)
    else if s[0] == sp.Terminator() then Ok((acc, s[1..]))
    else if !sp.IsDigit(s[0]) then Err(InvalidPayload)
    else ReadLen(sp, s[1..], Wrap64(acc * 10 + (s[0] - sp.Zero())))
  }

  /** Any digit string, however long, is read as its value wrapped to 64 bits. */
  lemma {:induction false} ReadLenValue(sp: Spelling, acc: nat, ds: seq<digit>, tail: seq<byte>)
    ensures ReadLen(sp, Shifted(ds, sp.Zero()) + [sp.Terminator()] + tail, Wrap64(acc))
         == Ok((Wrap64(Push(acc, ds)), tail))
    decreases |ds|
  {
    var s := Shifted(ds, sp.Zero()) + [sp.Terminator()] + tail;
    if ds == [] {
      assert s[1..] == tail;
    } else {
      ShiftedHead(sp, ds, tail);
      WrapPush(acc, ds[0]);
      ReadLenValue(sp, acc * 10 + ds[0], ds[1..], tail);
    }
  }

  lemma ShiftedHead(sp: Spelling, ds: seq<digit>, tail: seq<byte>)
    requires ds != []
    ensures (Shifted(ds, sp.Zero()) + [sp.Terminator()] + tail)[0] == sp.Zero() + ds[0]
    ensures (Shifted(ds, sp.Zero()) + [sp.Terminator()] + tail)[1..]
         == Shifted(ds[1..], sp.Zero()) + [sp.Terminator()] + tail
  {
    assert Shifted(ds, sp.Zero())[1..] == Shifted(ds[1..], sp.Zero());
  }

  /** Length numerals round trip and are self-delimiting. */
  lemma LenRoundTrip(sp: Spelling, l: int64, tail: seq<byte>)
    requires l >= 0
    ensures ReadLen(sp, LenText(sp, l) + tail, 0) == Ok((l, tail))
  {
    PushDigits(l);
    ReadLenValue(sp, 0, Digits(l), tail);
  }

  /** The highest power of ten not above `len`; no step leaves the signed 64-bit range. */
  method TopPower(len: int64) returns (max: int64, ghost k: nat)
    requires len > 0
    ensures max == Scale(1, k) && max <= len < 10 * max
  {
    max, k := 1, 0;
    var n: int64 := len / 10;
    while n > 0
      invariant max == Scale(1, k) && 0 <= n
      invariant n * (10 * max) <= len < (n + 1) * (10 * max)
      invariant max <= len
      decreases n
    {
      MulMonotone(1, n, 10 * max);
      NextDecade(len, n, 10 * max);
      max := max * 10;
      n := n / 10;
      k := k + 1;
    }
  }

  /** Division by repeated subtraction: the digit a power `p` of ten contributes to `l`, and the rest. */
  function TopDigit(l: nat, p: nat): (r: (nat, nat))
    requires p > 0
    ensures r.1 < p
    ensures l < p ==> r == (0, l)
    decreases l
  {
    if l < p then (0, l) else var (n, rest) := TopDigit(l - p, p); (n + 1, rest)
  }

  lemma {:induction false} TopDigitBound(l: nat, p: nat, d: nat)
    requires p > 0 && l < Times(d, p)
    ensures TopDigit(l, p).0 < d
    ensures p <= l ==> TopDigit(l, p).0 > 0
    decreases l
  {
    if p <= l {
      TopDigitBound(l - p, p, d - 1);
    }
  }

  function Times(d: nat, p: nat): nat { if d == 0 then 0 else p + Times(d - 1, p) }

  /** The machine's `/` and the remainder it leaves are the top digit and the rest. */
  lemma TopDigitDiv(l: nat, p: nat)
    requires p > 0
    ensures TopDigit(l, p) == (l / p, l - l / p * p)
  {
    var (n, rest) := TopDigit(l, p);
    TopDigitSum(l, p);
    DivUnique(l, p, n, rest);
  }

  lemma {:induction false} TopDigitSum(l: nat, p: nat)
    requires p > 0
    ensures var (n, rest) := TopDigit(l, p); n * p + rest == l
    decreases l
  {
    if p <= l {
      TopDigitSum(l - p, p);
      Distribute(TopDigit(l - p, p).0, p);
    }
  }

  lemma Distribute(n: nat, p: nat)
    ensures (n + 1) * p == n * p + p
  {
  }

  lemma DivUnique(l: nat, p: nat, q: nat, r: nat)
    requires p > 0 && r < p && l == q * p + r
    ensures l / p == q
  {
    var d := l / p;
    assert l == d * p + l % p;
    if d < q {
      MulMonotone(d + 1, q, p);
    } else if q < d {
      MulMonotone(q + 1, d, p);
    }
  }

  /** The `e + 1` digits of `l`, peeled off from the top. */
  function TopDigits(l: nat, e: nat): (ds: seq<digit>)
    requires l < Scale(1, e + 1)
    ensures |ds| == e + 1
    ensures Scale(1, e) <= l ==> ds[0] != 0
    decreases e
  {
    var p := Scale(1, e);
    assert l < Times(10, p) by { TenTimes(p); }
    TopDigitBound(l, p, 10);
    var (n, rest) := TopDigit(l, p);
    if e == 0 then [n] else [n] + TopDigits(rest, e - 1)
  }

  lemma TenTimes(p: nat)
    ensures Times(10, p) == 10 * p
  {
    assert Times(1, p) == p;
    assert Times(3, p) == 3 * p;
    assert Times(5, p) == 5 * p;
    assert Times(7, p) == 7 * p;
    assert Times(9, p) == 9 * p;
  }

  lemma {:induction false} ScaleShift(v: nat, e: nat)
    ensures Scale(10 * v, e) == Scale(v, e + 1)
  {
    if e > 0 { ScaleShift(v, e - 1); }
  }

  lemma {:induction false} ScaleAdd(v: nat, u: nat, e: nat)
    ensures Scale(v + u, e) == Scale(v, e) + Scale(u, e)
  {
    if e > 0 { ScaleAdd(v, u, e - 1); }
  }

  lemma {:induction false} ScaleTopDigit(l: nat, e: nat)
    ensures var (n, rest) := TopDigit(l, Scale(1, e)); Scale(n, e) + rest == l
    decreases l
  {
    var p := Scale(1, e);
    if p <= l {
      ScaleTopDigit(l - p, e);
      ScaleAdd(TopDigit(l - p, p).0, 1, e);
    } else {
      ScaleAdd(0, 0, e);
    }
  }

  lemma PushHead(v: nat, d: digit, ds: seq<digit>)
    ensures Push(v, [d] + ds) == Push(v * 10 + d, ds)
  {
    assert ([d] + ds)[1..] == ds;
  }

  /** The top digit moves from the number to the front of it. */
  lemma ScaleTop(v: nat, l: nat, e: nat)
    ensures var (n, rest) := TopDigit(l, Scale(1, e)); Scale(v, e + 1) + l == Scale(v * 10 + n, e) + rest
  {
    ScaleTopDigit(l, e);
    ScaleShift(v, e);
    ScaleAdd(v * 10, TopDigit(l, Scale(1, e)).0, e);
  }

  lemma {:induction false} PushTopDigits(v: nat, l: nat, e: nat)
    requires l < Scale(1, e + 1)
    ensures Push(v, TopDigits(l, e)) == Scale(v, e + 1) + l
    decreases e
  {
    var (n, rest) := TopDigit(l, Scale(1, e));
    TopDigitsHead(l, e);
    ScaleTop(v, l, e);
    if e == 0 {
      PushHead(v, n, []);
      assert [n] + [] == [n];
    } else {
      PushHead(v, n, TopDigits(rest, e - 1));
      PushTopDigits(v * 10 + n, rest, e - 1);
    }
  }

  lemma TopDigitsCanonical(l: nat, e: nat)
    requires l < Scale(1, e + 1) && (e == 0 || Scale(1, e) <= l)
    ensures TopDigits(l, e) == Digits(l)
  {
    PushTopDigits(0, l, e);
    ScaleAdd(0, 0, e + 1);
    CanonicalUnique(TopDigits(l, e));
  }

  lemma TopDigitsHead(l: nat, e: nat)
    requires l < Scale(1, e + 1)
    ensures var (n, rest) := TopDigit(l, Scale(1, e));
            && n < 10
            && TopDigits(l, e) == [n] + (if e == 0 then [] else TopDigits(rest, e - 1))
  {
    TenTimes(Scale(1, e));
    TopDigitBound(l, Scale(1, e), 10);
  }

  /** One step of the digit loop: the digit and what remains. */
  method SplitTop(l: uint64, max: uint64) returns (n: nat, rest: nat)
    requires max > 0
    ensures (n, rest) == TopDigit(l, max)
  {
    n := l / max;
    rest := l - n * max;
    TopDigitDiv(l, max);
  }

  /** Peels the digits of `value` off from the top, the way all three writers do. */
  method WriteDigits(value: uint64, top: uint64, ghost k: nat, zero: byte, w: Buffer)
    requires top == Scale(1, k) && value < 10 * top && (k == 0 || top <= value)
    requires zero <= 246
    modifies w
    ensures w.data == old(w.data) + Shifted(Digits(value), zero)
  {
    var l: uint64, max: uint64 := value, top;
    ghost var ds: seq<digit>, e: nat := [], k;
    assert w.data == old(w.data) + Shifted(ds, zero);
    while max > 0
      invariant max > 0 ==> max == Scale(1, e) && l < Scale(1, e + 1) && ds + TopDigits(l, e) == TopDigits(value, k)
      invariant max == 0 ==> ds == TopDigits(value, k)
      invariant w.data == old(w.data) + Shifted(ds, zero)
      decreases max
    {
      TopDigitsHead(l, e);
      var n, rest := SplitTop(l, max);
      w.WriteByte(n + zero);
      assert Shifted(ds + [n], zero) == Shifted(ds, zero) + [n + zero];
      if e > 0 {
        assert ds + TopDigits(l, e) == (ds + [n]) + TopDigits(rest, e - 1);
      }
      ds, l, max := ds + [n], rest, max / 10;
      e := if e > 0 then e - 1 else 0;
    }
    TopDigitsCanonical(value, k);
  }

  /** `writeTextLen` and `writeBinaryLen`. */
  method WriteLen(sp: Spelling, l: int64, w: Buffer)
    modifies w
    ensures w.data == old(w.data) + LenText(sp, l)
  {
    if l <= 0 {
      w.WriteByte(sp.Zero());
      w.WriteByte(sp.Terminator());
      assert w.data == old(w.data) + LenText(sp, l);
      return;
    }
    var max, k := TopPower(l);
    WriteDigits(l, max, k, sp.Zero(), w);
    w.WriteByte(sp.Terminator());
    assert w.data == old(w.data) + LenText(sp, l);
  }

  /** The readers, one byte at a time. */
  method ReadLength(sp: Spelling, r: Reader) returns (res: Result<int64, ReadError>)
    requires r.Valid()
    modifies r
    ensures r.Valid()
    ensures match ReadLen(sp, old(r.Rest()), 0)
            case Ok(v) => res == Ok(v.0) && r.Rest() == v.1
            case Err(e) => res == Err(e)
  {
    var ret: int64 := 0;
    while true
      invariant r.Valid()
      invariant ReadLen(sp, old(r.Rest()), 0) == ReadLen(sp, r.Rest(), ret)
      decreases |r.data| - r.pos
    {
      var b := r.ReadByte();
      if b.None? {
        return Err(EOF);
      }
      if b.value == sp.Terminator() {
        break;
      }
      if !sp.IsDigit(b.value) {
        return Err(InvalidPayload);
      }
      ret := Wrap64(ret * 10 + (b.value - sp.Zero()));
    }
    res := Ok(ret);
  }

  // ---------- arithmetic behind the digit loops ----------

  /** `v` followed by `e` zeros; `Scale(1, e)` is a power of ten. */
  function Scale(v: nat, e: nat): (p: nat)
    ensures v > 0 ==> p > 0
  {
    if e == 0 then v else 10 * Scale(v, e - 1)
  }

  lemma NextDecade(len: nat, n: nat, m: nat)
    requires m > 0 && n * m <= len < (n + 1) * m
    ensures (n / 10) * (10 * m) <= len < (n / 10 + 1) * (10 * m)
  {
    var q := n / 10;
    Decade(q, m);
    Decade(q + 1, m);
    MulMonotone(10 * q, n, m);
    MulMonotone(n + 1, 10 * (q + 1), m);
  }

  lemma Decade(q: nat, m: nat)
    ensures q * (10 * m) == (10 * q) * m
  {
  }

  lemma MulMonotone(a: nat, b: nat, m: nat)
    requires a <= b
    ensures a * m <= b * m
  {
  }

  // ---------- unsigned numbers of the packet header ----------

  function NumberText(i: uint64): (s: seq<byte>)
    ensures |s| > 0 && Spelling.Text.IsDigit(s[0])
  {
    Shifted(Digits(i), '0' as int)
  }

  lemma NumberIsDigits(i: uint64)
    ensures forall k :: 0 <= k < |NumberText(i)| ==> Spelling.Text.IsDigit(NumberText(i)[k])
  {
  }

  /** The number the reader makes of the leading digits of `s`, starting from `acc`,
      wrapped to 64 bits, and what follows them. */
  function ReadDigits(s: seq<byte>, acc: uint64): (r: (uint64, seq<byte>))
    ensures |r.1| <= |s|
    decreases |s|
  {
    if s == [] || !Spelling.Text.IsDigit(s[0]) then (acc, s)
    else ReadDigits(s[1..], (acc * 10 + (s[0] - '0' as int)) % TWO_64)
  }

  lemma {:induction false} ReadDigitsValue(acc: nat, ds: seq<digit>, tail: seq<byte>)
    requires Push(acc, ds) < TWO_64
    requires tail == [] || !Spelling.Text.IsDigit(tail[0])
    ensures ReadDigits(Shifted(ds, '0' as int) + tail, acc) == (Push(acc, ds), tail)
    decreases |ds|
  {
    var s := Shifted(ds, '0' as int) + tail;
    if ds == [] {
      assert s == tail;
    } else {
      assert s[0] == '0' as int + ds[0];
      assert s[1..] == Shifted(ds[1..], '0' as int) + tail;
      var next := acc * 10 + ds[0];
      assert next <= Push(next, ds[1..]);
      assert (acc * 10 + (s[0] - '0' as int)) % TWO_64 == next;
      ReadDigitsValue(next, ds[1..], tail);
    }
  }

  /** Header numbers round trip for every unsigned 64-bit value and stop at the first non-digit. */
  lemma NumberRoundTrip(i: uint64, tail: seq<byte>)
    requires tail == [] || !Spelling.Text.IsDigit(tail[0])
    ensures ReadDigits(NumberText(i) + tail, 0) == (i, tail)
  {
    PushDigits(i);
    ReadDigitsValue(0, Digits(i), tail);
  }

  method WriteUint64(w: Buffer, i: uint64)
    modifies w
    ensures w.data == old(w.data) + NumberText(i)
  {
    var base: uint64 := 1;
    ghost var k: nat := 0;
    while i / base >= 10
      invariant base == Scale(1, k) && (k == 0 || base <= i)
      invariant w.data == old(w.data)
      decreases i - base
    {
      DecadeFits(i, base);
      base := base * 10;
      k := k + 1;
    }
    DecadeReached(i, base);
    WriteDigits(i, base, k, '0' as int, w);
  }

  lemma DecadeFits(i: nat, base: nat)
    requires base > 0 && i / base >= 10
    ensures base * 10 <= i
  {
    assert i == (i / base) * base + i % base;
    assert (i / base) * base >= 10 * base;
  }

  lemma DecadeReached(i: nat, base: nat)
    requires base > 0 && i / base < 10
    ensures i < 10 * base
  {
    assert i == (i / base) * base + i % base;
    assert (i / base) * base <= 9 * base;
  }

  /** The header number reader: the value, whether any digit was there, and one byte of look-ahead put back. */
  method ReadUint64FromText(r: Reader) returns (num: uint64, hasRead: bool, eof: bool)
    requires r.Valid()
    modifies r
    ensures r.Valid()
    ensures (num, r.Rest()) == ReadDigits(old(r.Rest()), 0)
    ensures hasRead <==> old(r.Rest()) != [] && Spelling.Text.IsDigit(old(r.Rest())[0])
    ensures eof <==> old(r.Rest()) == []
  {
    num, hasRead, eof := 0, false, false;
    while true
      invariant r.Valid() && old(r.pos) <= r.pos
      invariant ReadDigits(old(r.Rest()), 0) == ReadDigits(r.Rest(), num)
      invariant hasRead <==> r.pos > old(r.pos)
      invariant hasRead ==> old(r.Rest()) != [] && Spelling.Text.IsDigit(old(r.Rest())[0])
      decreases |r.data| - r.pos
    {
      var b := r.ReadByte();
      if b.None? {
        eof := !hasRead;
        return;
      }
      if !Spelling.Text.IsDigit(b.value) {
        r.UnreadByte();
        return;
      }
      hasRead := true;
      num := (num * 10 + (b.value - '0' as int)) % TWO_64;
    }
  }
}
