/** Bytes, machine integers and the two in-memory byte devices the codecs use:
    an append-only buffer and a reader that can step back by one byte. */
module Bytes {

  type byte = b: int | 0 <= b < 256

  const TWO_63: int := 0x8000_0000_0000_0000
  const TWO_64: int := 0x1_0000_0000_0000_0000

  type int64 = n: int | -TWO_63 <= n < TWO_63
  type uint64 = n: int | 0 <= n < TWO_64

  /** Two's complement wrap-around of a mathematical integer to 64 signed bits. */
  function Wrap64(n: int): (r: int64)
    ensures -TWO_63 <= n < TWO_63 ==> r == n
    ensures (n - r) % TWO_64 == 0
  {
    (n + TWO_63) % TWO_64 - TWO_63
  }

  /** One more decimal digit can be pushed before or after wrapping. */
  lemma WrapPush(n: int, d: int)
    ensures Wrap64(Wrap64(n) * 10 + d) == Wrap64(n * 10 + d)
  {
    var k := (n - Wrap64(n)) / TWO_64;
    assert n == Wrap64(n) + k * TWO_64;
    var m := Wrap64(n) * 10 + d;
    assert n * 10 + d + TWO_63 == (m + TWO_63) + (10 * k) * TWO_64;
    ModShift(m + TWO_63, 10 * k);
  }

  lemma ModShift(n: int, k: int)
    ensures (n + k * TWO_64) % TWO_64 == n % TWO_64
  {
    var q, r := n / TWO_64, n % TWO_64;
    assert n + k * TWO_64 == (q + k) * TWO_64 + r;
  }

  datatype Option<+T> = None | Some(value: T)

  datatype Result<+T, +E> = Ok(value: T) | Err(error: E)

  /** `bytes.Buffer` as the codecs use it. */
  class Buffer {
    var data: seq<byte>

    constructor ()
      ensures data == []
    {
      data := [];
    }

    method WriteByte(b: byte)
      modifies this
      ensures data == old(data) + [b]
    {
      data := data + [b];
    }

    method Write(p: seq<byte>)
      modifies this
      ensures data == old(data) + p
    {
      data := data + p;
    }
  }

  /** A byte reader over a finite stream; `Rest` is what is still unread. */
  class Reader {
    const data: seq<byte>
    var pos: nat

    ghost predicate Valid()
      reads this
    {
      pos <= |data|
    }

    ghost function Rest(): seq<byte>
      requires Valid()
      reads this
    {
      data[pos..]
    }

    constructor (data: seq<byte>)
      ensures Valid() && Rest() == data && this.data == data
    {
      this.data := data;
      pos := 0;
    }

    method ReadByte() returns (r: Option<byte>)
      requires Valid()
      modifies this
      ensures Valid()
      ensures r.None? <==> old(Rest()) == []
      ensures r.None? ==> pos == old(pos)
      ensures r.Some? ==> pos == old(pos) + 1 && r.value == old(Rest())[0] && Rest() == old(Rest())[1..]
    {
      if pos == |data| {
        return None;
      }
      r := Some(data[pos]);
      pos := pos + 1;
    }

    method UnreadByte()
      requires Valid() && pos > 0
      modifies this
      ensures Valid() && pos == old(pos) - 1
      ensures Rest() == [data[pos]] + old(Rest())
    {
      pos := pos - 1;
    }
  }
}
