/** Frame lengths counted in UTF-16 code units, and the decoder's byte budget that is
    refunded by lead byte (engineio/payload/encoder.go, engineio/payload/decoder.go). */
module CodeUnits {
  import opened Bytes

  // ---------- what one byte contributes ----------

  /** Code units the encoder counts for a byte; a continuation byte counts nothing. */
  function Units(b: byte): nat {
    if b / 8 == 30 then 2
    else if b / 16 == 14 then 1
    else if b / 32 == 6 then 1
    else if b / 64 == 2 then 0
    else 1
  }

  /** What the decoder puts back into its budget for a byte it has read. */
  function Refund(b: byte): nat {
    if b / 8 == 30 then 2
    else if b / 16 == 14 then 2
    else if b / 32 == 6 then 1
    else 0
  }

  /** Continuation bytes a byte promises (lead bytes) or delivers (continuation bytes). */
  function Owes(b: byte): int {
    if b / 8 == 30 then 3
    else if b / 16 == 14 then 2
    else if b / 32 == 6 then 1
    else if b / 64 == 2 then -1
    else 0
  }

  function TotalUnits(s: seq<byte>): nat {
    if s == [] then 0 else Units(s[0]) + TotalUnits(s[1..])
  }

  function TotalRefund(s: seq<byte>): nat {
    if s == [] then 0 else Refund(s[0]) + TotalRefund(s[1..])
  }

  function Owed(s: seq<byte>): int {
    if s == [] then 0 else Owes(s[0]) + Owed(s[1..])
  }

  lemma {:induction false} TotalsSplit(s: seq<byte>, t: seq<byte>)
    ensures TotalUnits(s + t) == TotalUnits(s) + TotalUnits(t)
    ensures TotalRefund(s + t) == TotalRefund(s) + TotalRefund(t)
    ensures Owed(s + t) == Owed(s) + Owed(t)
  {
    if s == [] {
      assert s + t == t;
    } else {
      TotalsSplit(s[1..], t);
      assert (s + t)[1..] == s[1..] + t;
    }
  }

  /** A byte costs one, less its refund; that is its code units less the continuation bytes it owes. */
  lemma {:induction false} CostIsUnitsMinusOwed(s: seq<byte>)
    ensures |s| - TotalRefund(s) == TotalUnits(s) - Owed(s)
  {
    if s != [] {
      CostIsUnitsMinusOwed(s[1..]);
    }
  }

  /** The encoder's `calcCodeUnitLength`: one for the packet type, then the frame. */
  method CalcCodeUnitLength(frame: seq<byte>) returns (l: nat)
    ensures l == 1 + TotalUnits(frame)
  {
    l := 1;
    var codeUnitSize := 0;
    for i := 0 to |frame|
      invariant l == 1 + TotalUnits(frame[..i])
    {
      var b := frame[i];
      if b / 8 == 30 {
        codeUnitSize := 2;
      } else if b / 16 == 14 {
        codeUnitSize := 1;
      } else if b / 32 == 6 {
        codeUnitSize := 1;
      } else if b / 64 == 2 {
        codeUnitSize := 0;
      } else {
        codeUnitSize := 1;
      }
      TotalsSplit(frame[..i], [b]);
      assert frame[..i + 1] == frame[..i] + [b];
      assert [b][1..] == [];
      l := l + codeUnitSize;
    }
    assert frame[..|frame|] == frame;
  }

  // ---------- the limited reader ----------

  /** The unread stream together with the remaining budget of the limited reader. */
  datatype Limited = Limited(rest: seq<byte>, n: int)

  /** How many bytes the budget is meant to last for: each byte costs one, less its refund. */
  function Stop(rest: seq<byte>, n: int): (k: nat)
    ensures k <= |rest|
  {
    if n <= 0 || rest == [] then 0
    else 1 + Stop(rest[1..], n - 1 + Refund(rest[0]))
  }

  function Body(l: Limited): seq<byte> { l.rest[..Stop(l.rest, l.n)] }

  function After(l: Limited): seq<byte> { l.rest[Stop(l.rest, l.n)..] }

  /** One `Read` of the decoder: room for `size` bytes, of which the underlying reader supplies at most `grant`.
      Returns the bytes and whether end of file is reported. The refund is added in 64 signed bits. */
  function ReadChunk(l: Limited, size: nat, grant: nat): (r: (seq<byte>, Limited, bool))
    ensures r.0 + r.1.rest == l.rest
    ensures l.n < TWO_63 ==> r.1.n < TWO_63
  {
    if l.n <= 0 then ([], l, true)
    else
      var room := if size > l.n then l.n else size;
      var k := Min(Min(room, grant), |l.rest|);
      var data := l.rest[..k];
      (data, Limited(l.rest[k..], Wrap64(l.n - k + TotalRefund(data))), l.rest == [])
  }

  function Min(a: nat, b: nat): nat { if a <= b then a else b }

  /** Somewhere before the last byte the refunds carry the budget past the largest signed 64-bit number. */
  predicate Surges(rest: seq<byte>, n: int) {
    n > 0 && |rest| > 1
    && var m := n - 1 + Refund(rest[0]);
    m >= TWO_63 || Surges(rest[1..], m)
  }

  /** A byte raises the budget by one at most, so there is no surge in a stream short enough. */
  lemma {:induction false} NoSurge(rest: seq<byte>, n: int)
    requires n + |rest| <= TWO_63
    ensures !Surges(rest, n)
  {
    if n > 0 && |rest| > 1 {
      NoSurge(rest[1..], n - 1 + Refund(rest[0]));
    }
  }

  /** A chunk of at most the budget, read without a surge: it does not reach past the stop, its refund does not
      wrap unless the stream is at its end, and no surge is left for later. */
  lemma {:induction false} ChunkWithinBudget(rest: seq<byte>, n: int, k: nat)
    requires k <= |rest| && k <= n < TWO_63 && !Surges(rest, n)
    ensures var n' := Wrap64(n - k + TotalRefund(rest[..k]));
            Stop(rest, n) == k + Stop(rest[k..], n') && !Surges(rest[k..], n')
  {
    if k == 0 {
      assert rest[0..] == rest;
    } else if |rest| == 1 {
      assert rest[1..] == [];
    } else {
      ChunkWithinBudget(rest[1..], n - 1 + Refund(rest[0]), k - 1);
      assert rest[1..][k - 1..] == rest[k..];
      assert rest[..k][1..] == rest[1..][..k - 1];
    }
  }

  /** Any sequence of reads, each with its own buffer size and its own short count. */
  function ReadChunks(l: Limited, requests: seq<(nat, nat)>): (r: (seq<byte>, Limited))
    decreases |requests|
  {
    if requests == [] then ([], l)
    else
      var (data, l1, _) := ReadChunk(l, requests[0].0, requests[0].1);
      var (more, l2) := ReadChunks(l1, requests[1..]);
      (data + more, l2)
  }

  /** One read, without a surge, keeps what is left of the frame and what follows it. */
  lemma ChunkKeepsEnd(l: Limited, size: nat, grant: nat)
    requires l.n < TWO_63 && !Surges(l.rest, l.n)
    ensures var (data, l', eof) := ReadChunk(l, size, grant);
            && data + Body(l') == Body(l)
            && After(l') == After(l)
            && (eof <==> Body(l) == [])
            && !Surges(l'.rest, l'.n)
  {
    var (data, l', eof) := ReadChunk(l, size, grant);
    if l.n > 0 {
      ChunkWithinBudget(l.rest, l.n, |data|);
      Resume(l.rest, |data|, Stop(l'.rest, l'.n));
    }
  }

  lemma Resume(s: seq<byte>, i: nat, k: nat)
    requires i + k <= |s|
    ensures s[..i] + s[i..][..k] == s[..i + k] && s[i..][k..] == s[i + k..]
  {
  }

  /** What was read followed by what is still to come is the frame, and the stream behind it is the same. */
  predicate KeepsFrame(l: Limited, requests: seq<(nat, nat)>) {
    var (data, l') := ReadChunks(l, requests);
    data + Body(l') == Body(l) && After(l') == After(l)
  }

  lemma Cancel(a: seq<byte>, x: seq<byte>, y: seq<byte>)
    ensures a + x == a + y <==> x == y
  {
    assert (a + x)[|a|..] == x && (a + y)[|a|..] == y;
  }

  /** After a chunk that keeps the frame, the frame is kept if the other chunks keep what is left of it. */
  lemma ChunkLater(l: Limited, requests: seq<(nat, nat)>, data: seq<byte>, l1: Limited)
    requires requests != []
    requires ReadChunk(l, requests[0].0, requests[0].1).0 == data && ReadChunk(l, requests[0].0, requests[0].1).1 == l1
    requires data + Body(l1) == Body(l) && After(l1) == After(l)
    ensures KeepsFrame(l, requests) <==> KeepsFrame(l1, requests[1..])
  {
    var (more, l2) := ReadChunks(l1, requests[1..]);
    assert (data + more) + Body(l2) == data + (more + Body(l2));
    Cancel(data, more + Body(l2), Body(l1));
  }

  /** Chunk independence, whatever the sizes and short reads. */
  lemma {:induction false} ChunkIndependence(l: Limited, requests: seq<(nat, nat)>)
    requires l.n < TWO_63 && !Surges(l.rest, l.n)
    ensures KeepsFrame(l, requests)
    decreases |requests|
  {
    if requests != [] {
      var (data, l1, _) := ReadChunk(l, requests[0].0, requests[0].1);
      ChunkKeepsEnd(l, requests[0].0, requests[0].1);
      ChunkIndependence(l1, requests[1..]);
      ChunkLater(l, requests, data, l1);
    }
  }

  /** Where the budget surges, a reader of single bytes finds the frame at its end too early. */
  lemma {:induction false} SurgeBreaks(l: Limited) returns (requests: seq<(nat, nat)>)
    requires l.n < TWO_63 && Surges(l.rest, l.n)
    ensures !KeepsFrame(l, requests)
    decreases |l.rest|
  {
    var m := l.n - 1 + Refund(l.rest[0]);
    var (data, l1, _) := ReadChunk(l, 1, 1);
    assert data == [l.rest[0]] && l1 == Limited(l.rest[1..], Wrap64(m)) by {
      assert [l.rest[0]][1..] == [] && l.rest[..1] == [l.rest[0]];
      assert TotalRefund([l.rest[0]]) == Refund(l.rest[0]);
    }
    if m >= TWO_63 {
      requests := [(1, 1)];
      assert requests[1..] == [] && |ReadChunks(l, requests).0| == 1;
      assert Stop(l.rest[1..], m) > 0;
    } else {
      var more := SurgeBreaks(l1);
      requests := [(1, 1)] + more;
      assert requests[1..] == more;
      assert [l.rest[0]] + Body(l1) == Body(l) && After(l1) == After(l);
      ChunkLater(l, requests, data, l1);
    }
  }

  /** Chunks do not matter exactly if the budget does not surge. */
  lemma ChunkIndependenceExactly(l: Limited)
    requires l.n < TWO_63
    ensures (forall requests :: KeepsFrame(l, requests)) <==> !Surges(l.rest, l.n)
  {
    if Surges(l.rest, l.n) {
      var requests := SurgeBreaks(l);
    } else {
      forall requests ensures KeepsFrame(l, requests) {
        ChunkIndependence(l, requests);
      }
    }
  }

  /** With the largest budget and a lead byte, reading one byte ends the frame, and reading three goes on. */
  lemma LargestBudget(tail: seq<byte>)
    ensures var l := Limited([0xE0, 0x41, 0x41] + tail, TWO_63 - 1);
            && ReadChunk(l, 1, 1).1 == Limited([0x41, 0x41] + tail, -TWO_63)
            && ReadChunk(l, 3, 3).1 == Limited(tail, TWO_63 - 2)
  {
    var s := [0xE0, 0x41, 0x41] + tail;
    assert s[..1] == [0xE0] && s[1..] == [0x41, 0x41] + tail && s[..3] == [0xE0, 0x41, 0x41] && s[3..] == tail;
    assert [0xE0][1..] == [];
    assert [0xE0, 0x41, 0x41][1..] == [0x41, 0x41] && [0x41, 0x41][1..] == [0x41] && [0x41][1..] == [];
    assert TotalRefund([0x41]) == 0;
  }

  // ---------- when a frame body is recovered ----------

  /** The budget left after `j` bytes of a frame body that was sent with its own length. */
  function BudgetAt(body: seq<byte>, j: nat): int
    requires j <= |body|
  {
    TotalUnits(body) - j + TotalRefund(body[..j])
  }

  /** The budget is always the continuation bytes still owed for what was read
      plus the code units of what was not. */
  lemma BudgetMeaning(body: seq<byte>, j: nat)
    requires j <= |body|
    ensures BudgetAt(body, j) == Owed(body[..j]) + TotalUnits(body[j..])
  {
    assert body == body[..j] + body[j..];
    TotalsSplit(body[..j], body[j..]);
    CostIsUnitsMinusOwed(body[..j]);
  }

  /** Every proper prefix leaves something in the budget. */
  predicate NeverStarved(body: seq<byte>) {
    forall j :: 0 <= j < |body| ==> Owed(body[..j]) + TotalUnits(body[j..]) > 0
  }

  /** Every promised continuation byte arrives, and the budget lasts to the end. */
  predicate Recoverable(body: seq<byte>) {
    NeverStarved(body) && Owed(body) == 0
  }

  lemma {:induction false} StopReaches(s: seq<byte>, n: int, k: nat)
    requires k <= |s|
    ensures Stop(s, n) >= k <==> forall j {:trigger s[..j]} :: 0 <= j < k ==> n - j + TotalRefund(s[..j]) > 0
  {
    if k > 0 {
      assert s[..0] == [];
      if n > 0 {
        var m := n - 1 + Refund(s[0]);
        StopReaches(s[1..], m, k - 1);
        forall j | 0 <= j < k - 1
          ensures s[..j + 1][1..] == s[1..][..j]
          ensures m - j + TotalRefund(s[1..][..j]) == n - (j + 1) + TotalRefund(s[..j + 1])
        {
          assert s[..j + 1][1..] == s[1..][..j];
        }
        forall j | 1 <= j < k
          ensures n - j + TotalRefund(s[..j]) == m - (j - 1) + TotalRefund(s[1..][..j - 1])
        {
          assert s[..j][1..] == s[1..][..j - 1];
        }
      }
    }
  }

  /** The stop point inside `body + tail` reaches the end of `body` exactly if the body never starves the budget. */
  lemma ReachesEnd(body: seq<byte>, tail: seq<byte>)
    ensures Stop(body + tail, TotalUnits(body)) >= |body| <==> NeverStarved(body)
  {
    var s := body + tail;
    StopReaches(s, TotalUnits(body), |body|);
    forall j | 0 <= j < |body|
      ensures s[..j] == body[..j]
      ensures TotalUnits(body) - j + TotalRefund(s[..j]) == Owed(body[..j]) + TotalUnits(body[j..])
    {
      assert s[..j] == body[..j];
      BudgetMeaning(body, j);
    }
  }

  /** Exact criterion: with more bytes behind it, a frame body sent with its own length is read back
      exactly if and only if it is recoverable. */
  lemma RecoveredIffRecoverable(body: seq<byte>, tail: seq<byte>)
    requires tail != []
    ensures Body(Limited(body + tail, TotalUnits(body))) == body <==> Recoverable(body)
  {
    var s, n := body + tail, TotalUnits(body);
    ReachesEnd(body, tail);
    StopBody(body, tail);
    if Stop(s, n) == |body| {
      assert s[..|body|] == body;
    }
  }

  lemma StopBody(body: seq<byte>, tail: seq<byte>)
    requires tail != []
    ensures Stop(body + tail, TotalUnits(body)) == |body| <==> Recoverable(body)
  {
    var s, n := body + tail, TotalUnits(body);
    ReachesEnd(body, tail);
    assert body[..|body|] == body && body[|body|..] == [];
    BudgetMeaning(body, |body|);
    assert s[..|body|] == body && s[|body|..] == tail;
    if NeverStarved(body) {
      BudgetNonNegative(s, n, |body|);
      StopFrom(s, n, |body|);
    }
  }

  /** The budget never drops below zero on the way to the stop point. */
  lemma {:induction false} BudgetNonNegative(s: seq<byte>, n: int, k: nat)
    requires k <= Stop(s, n) && n >= 0
    ensures n - k + TotalRefund(s[..k]) >= 0
  {
    if k > 0 {
      BudgetNonNegative(s[1..], n - 1 + Refund(s[0]), k - 1);
      assert s[..k][1..] == s[1..][..k - 1];
    }
  }

  lemma {:induction false} StopFrom(s: seq<byte>, n: int, k: nat)
    requires k <= Stop(s, n)
    ensures Stop(s, n) == k + Stop(s[k..], n - k + TotalRefund(s[..k]))
  {
    if k == 0 {
      assert s[0..] == s;
    } else {
      StopFrom(s[1..], n - 1 + Refund(s[0]), k - 1);
      assert s[1..][k - 1..] == s[k..];
      assert s[..k][0] == s[0] && s[..k][1..] == s[1..][..k - 1];
      assert TotalRefund(s[..k]) == Refund(s[0]) + TotalRefund(s[1..][..k - 1]);
    }
  }

  /** At the end of the stream a body only has to last: the missing continuation bytes cannot be read. */
  lemma LastRecoveredIff(body: seq<byte>)
    ensures Body(Limited(body, TotalUnits(body))) == body <==> NeverStarved(body)
  {
    assert body + [] == body;
    ReachesEnd(body, []);
    if Stop(body, TotalUnits(body)) == |body| {
      assert body[..|body|] == body;
    }
  }

  /** Raw binary data need not be recoverable: a lone continuation byte is counted as nothing. */
  lemma ContinuationByteIsLost(tail: seq<byte>)
    ensures Body(Limited([0x80] + tail, TotalUnits([0x80]))) == []
    ensures !Recoverable([0x80])
  {
    assert [0x80][1..] == [];
    assert TotalUnits([0x80]) == 0;
    assert [0x80][..0] == [] && [0x80][0..] == [0x80];
    assert Owed([0x80][..0]) + TotalUnits([0x80][0..]) == 0;
  }

  // ---------- valid UTF-8 ----------

  /** Unicode scalar values: every code point but the surrogates. */
  type Scalar = v: int | 0 <= v < 0xD800 || 0xE000 <= v <= 0x10FFFF

  /** UTF-8 of one scalar value, RFC 3629 section 3. */
  function Utf8Char(v: Scalar): (s: seq<byte>)
    ensures 1 <= |s| <= 4
  {
    if v < 0x80 then [v]
    else if v < 0x800 then [0xC0 + v / 0x40, 0x80 + v % 0x40]
    else if v < 0x1_0000 then [0xE0 + v / 0x1000, 0x80 + v / 0x40 % 0x40, 0x80 + v % 0x40]
    else [0xF0 + v / 0x4_0000, 0x80 + v / 0x1000 % 0x40, 0x80 + v / 0x40 % 0x40, 0x80 + v % 0x40]
  }

  function Utf8(text: seq<Scalar>): seq<byte> {
    if text == [] then [] else Utf8Char(text[0]) + Utf8(text[1..])
  }

  /** Length in UTF-16 code units, RFC 2781 section 2.1. */
  function Utf16Length(text: seq<Scalar>): nat {
    if text == [] then 0
    else (if text[0] < 0x1_0000 then 1 else 2) + Utf16Length(text[1..])
  }

  /** One encoded character: its code units, that it delivers what it promises, and that inside it something is owed. */
  lemma CharBalance(v: Scalar)
    ensures TotalUnits(Utf8Char(v)) == if v < 0x1_0000 then 1 else 2
    ensures Owed(Utf8Char(v)) == 0
    ensures forall j :: 0 < j < |Utf8Char(v)| ==> Owed(Utf8Char(v)[..j]) > 0
  {
    var s := Utf8Char(v);
    var lead := s[0];
    forall j | 1 <= j <= |s|
      ensures TotalUnits(s[..j]) == Units(lead) && Owed(s[..j]) == Owes(lead) - (j - 1)
    {
      LeadAndContinuations(s[..j]);
    }
    assert s[..|s|] == s;
  }

  lemma {:induction false} LeadAndContinuations(s: seq<byte>)
    requires |s| > 0 && forall i :: 1 <= i < |s| ==> s[i] / 64 == 2
    ensures TotalUnits(s) == Units(s[0]) && Owed(s) == Owes(s[0]) - (|s| - 1)
    decreases |s|
  {
    var k := |s| - 1;
    if k == 0 {
      assert s[1..] == [];
    } else {
      LeadAndContinuations(s[..k]);
      TotalsSplit(s[..k], [s[k]]);
      assert s == s[..k] + [s[k]];
      assert [s[k]][1..] == [];
    }
  }

  /** For valid UTF-8 the computed length is the packet type plus the number of UTF-16 code units. */
  lemma {:induction false} UnitsAreUtf16(text: seq<Scalar>)
    ensures TotalUnits(Utf8(text)) == Utf16Length(text)
    ensures Owed(Utf8(text)) == 0
  {
    if text != [] {
      CharBalance(text[0]);
      UnitsAreUtf16(text[1..]);
      TotalsSplit(Utf8Char(text[0]), Utf8(text[1..]));
    }
  }

  /** Every valid UTF-8 text is recoverable. */
  lemma {:induction false} Utf8Recoverable(text: seq<Scalar>)
    ensures Recoverable(Utf8(text))
  {
    UnitsAreUtf16(text);
    if text != [] {
      var c, r := Utf8Char(text[0]), Utf8(text[1..]);
      var s := Utf8(text);
      CharBalance(text[0]);
      Utf8Recoverable(text[1..]);
      forall j | 0 <= j < |s|
        ensures Owed(s[..j]) + TotalUnits(s[j..]) > 0
      {
        if j == 0 {
          TotalsSplit(c, r);
          assert s[..0] == [] && s[0..] == s;
        } else if j < |c| {
          assert s[..j] == c[..j];
        } else {
          var i := j - |c|;
          assert s[..j] == c + r[..i] && s[j..] == r[i..];
          TotalsSplit(c, r[..i]);
        }
      }
    }
  }
}
