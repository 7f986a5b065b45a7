/** Binary attachments (parser/encoder.go, parser/decoder.go, parser/buffer.go): the encoder walks the arguments,
    numbers the buffers it meets and sends their data behind the text; the decoder walks what the JSON decoder
    made of the text and puts the data back. */
module Attachments {
  import B = Bytes

  type Data = seq<B.byte>

  /** What a buffer holds. */
  datatype Cell = Cell(num: nat, isBinary: bool, data: Data)

  class Buffer {
    var num: nat
    var isBinary: bool
    var data: Data

    function Contents(): Cell
      reads this
    {
      Cell(num, isBinary, data)
    }

    constructor (num: nat, isBinary: bool, data: Data)
      ensures this.num == num && this.isBinary == isBinary && this.data == data
    {
      this.num, this.isBinary, this.data := num, isBinary, data;
    }
  }

  /** The parts of a struct, array or slice are walked in their own order; those of a map in any order, which need not
      be that of another walk. */
  datatype Kind = Listed | Keyed(keys: seq<string>)

  /** An argument as reflection walks it: anything without parts, a buffer, a buffer that cannot be addressed,
      or a struct, array, slice or map with its parts in the order of the walk. */
  datatype Value = Plain | Held(buffer: Buffer) | Unaddressable | Parts(kind: Kind, parts: seq<Value>)

  /** The buffers of a value in the order of the walk. */
  ghost function Buffers(v: Value): seq<Buffer>
    decreases v, 1, 0
  {
    match v
    case Held(b) => [b]
    case Parts(_, parts) => BuffersOf(v, |parts|)
    case _ => []
  }

  /** Those of its first `n` parts. */
  ghost function BuffersOf(v: Value, n: nat): seq<Buffer>
    requires v.Parts? && n <= |v.parts|
    decreases v, 0, n
  {
    if n == 0 then [] else BuffersOf(v, n - 1) + Buffers(v.parts[n - 1])
  }

  ghost predicate Addressable(v: Value)
    decreases v
  {
    !v.Unaddressable? && (v.Parts? ==> forall i :: 0 <= i < |v.parts| ==> Addressable(v.parts[i]))
  }

  // ---------- numbering ----------

  /** Numbers from `index` on in the order of the walk; a buffer that comes again is numbered again. */
  ghost function Numbers(bs: seq<Buffer>, index: nat): map<Buffer, nat> {
    if bs == [] then map[] else Numbers(bs[..|bs| - 1], index)[bs[|bs| - 1] := index + |bs| - 1]
  }

  lemma OneMoreNumber(bs: seq<Buffer>, b: Buffer, index: nat)
    ensures Numbers(bs + [b], index) == Numbers(bs, index)[b := index + |bs|]
  {
    assert (bs + [b])[..|bs|] == bs;
  }

  lemma MergeOneMore(m: map<Buffer, nat>, n: map<Buffer, nat>, b: Buffer, x: nat)
    ensures m + n[b := x] == (m + n)[b := x]
  {
  }

  lemma {:induction false} NumbersAppend(a: seq<Buffer>, c: seq<Buffer>, index: nat)
    ensures Numbers(a + c, index) == Numbers(a, index) + Numbers(c, index + |a|)
  {
    if c == [] {
      assert a + c == a;
    } else {
      var (front, b) := (c[..|c| - 1], c[|c| - 1]);
      NumbersAppend(a, front, index);
      assert c == front + [b] && a + c == (a + front) + [b];
      OneMoreNumber(a + front, b, index);
      OneMoreNumber(front, b, index + |a|);
      MergeOneMore(Numbers(a, index), Numbers(front, index + |a|), b, index + |a| + |front|);
    }
  }

  /** A number finds the place in the walk where it was given. */
  lemma {:induction false} NumbersFind(bs: seq<Buffer>, index: nat, b: Buffer)
    requires b in bs
    ensures b in Numbers(bs, index)
    ensures index <= Numbers(bs, index)[b] < index + |bs| && bs[Numbers(bs, index)[b] - index] == b
  {
    var n := |bs| - 1;
    assert bs == bs[..n] + [bs[n]];
    if bs[n] != b {
      NumbersFind(bs[..n], index, b);
    }
  }

  /** The buffers are placeholders with these numbers. */
  ghost predicate Numbered(m: map<Buffer, nat>)
    reads m.Keys
  {
    forall b :: b in m ==> b.isBinary && b.num == m[b]
  }

  ghost predicate DataOf(bs: seq<Buffer>, ret: seq<Data>)
    reads set b | b in bs
  {
    |ret| == |bs| && forall i :: 0 <= i < |bs| ==> ret[i] == bs[i].data
  }

  lemma {:induction false} BuffersGrow(v: Value, i: nat, n: nat)
    requires v.Parts? && i <= n <= |v.parts|
    ensures BuffersOf(v, i) <= BuffersOf(v, n)
    decreases n
  {
    if i < n {
      BuffersGrow(v, i, n - 1);
    }
  }

  lemma PartIsIn(v: Value, i: nat)
    requires v.Parts? && i < |v.parts|
    ensures forall b :: b in Buffers(v.parts[i]) ==> b in Buffers(v)
  {
    BuffersGrow(v, i + 1, |v.parts|);
    forall b | b in BuffersOf(v, i + 1) ensures b in Buffers(v) {}
  }

  lemma AppendPart(a: seq<Buffer>, c: seq<Buffer>, x: seq<Data>, y: seq<Data>, index: nat)
    requires DataOf(a, x) && DataOf(c, y) && Numbered(Numbers(a, index) + Numbers(c, index + |a|))
    ensures DataOf(a + c, x + y) && Numbered(Numbers(a + c, index))
  {
    NumbersAppend(a, c, index);
  }

  /** Numbers the buffers from `index` on. Fails if one of them cannot be addressed. */
  method Attach(v: Value, index: nat) returns (ok: bool, ret: seq<Data>, next: nat)
    modifies (set b | b in Buffers(v))`num, (set b | b in Buffers(v))`isBinary
    ensures ok <==> Addressable(v)
    ensures ok ==> Numbered(Numbers(Buffers(v), index)) && DataOf(Buffers(v), ret) && next == index + |Buffers(v)|
    decreases v, 1
  {
    match v
    case Plain =>
      ok, ret, next := true, [], index;
    case Unaddressable =>
      ok, ret, next := false, [], index;
    case Held(b) =>
      b.num, b.isBinary := index, true;
      ok, ret, next := true, [b.data], index + 1;
    case Parts(_, _) =>
      ok, ret, next := AttachParts(v, index);
  }

  method AttachParts(v: Value, index: nat) returns (ok: bool, ret: seq<Data>, next: nat)
    requires v.Parts?
    modifies (set b | b in Buffers(v))`num, (set b | b in Buffers(v))`isBinary
    ensures ok <==> Addressable(v)
    ensures ok ==> Numbered(Numbers(Buffers(v), index)) && DataOf(Buffers(v), ret) && next == index + |Buffers(v)|
    decreases v, 0
  {
    ok, ret, next := true, [], index;
    var i := 0;
    ghost var seen: seq<Buffer> := [];
    while i < |v.parts|
      invariant 0 <= i <= |v.parts| && ok && seen == BuffersOf(v, i)
      invariant forall k :: 0 <= k < i ==> Addressable(v.parts[k])
      invariant Numbered(Numbers(seen, index)) && DataOf(seen, ret) && next == index + |seen|
    {
      PartIsIn(v, i);
      ghost var part := Buffers(v.parts[i]);
      var bs;
      ok, bs, next := AttachNext(v.parts[i], next, Numbers(seen, index));
      if !ok {
        return;
      }
      AppendPart(seen, part, ret, bs, index);
      ret, seen := ret + bs, seen + part;
      i := i + 1;
    }
  }

  /** One more part: what it shares with those before is numbered again, the rest keeps its number. */
  method AttachNext(v: Value, index: nat, ghost before: map<Buffer, nat>) returns (ok: bool, ret: seq<Data>, next: nat)
    requires Numbered(before)
    modifies (set b | b in Buffers(v))`num, (set b | b in Buffers(v))`isBinary
    ensures ok <==> Addressable(v)
    ensures ok ==> Numbered(before + Numbers(Buffers(v), index)) && DataOf(Buffers(v), ret)
    ensures ok ==> next == index + |Buffers(v)|
    decreases v, 2
  {
    ok, ret, next := Attach(v, index);
    forall b | b in Buffers(v) ensures b in Numbers(Buffers(v), index) {
      NumbersFind(Buffers(v), index, b);
    }
  }

  // ---------- putting the data back ----------

  datatype Outcome = Done | NotAddressable | OutOfRange

  /** The buffer does not refer to data that did not come. */
  predicate InRange(c: Cell, n: nat) { c.isBinary ==> c.num < n }

  /** A placeholder becomes the buffer it stands for; anything else stays as it is. */
  function Restored(c: Cell, buffers: seq<Data>): Cell {
    if c.isBinary && c.num < |buffers| then Cell(0, false, buffers[c.num]) else c
  }

  /** `was` are the contents of the buffers. */
  ghost predicate Contents(bs: seq<Buffer>, was: map<Buffer, Cell>)
    reads set b | b in bs
  {
    forall b :: b in bs ==> b in was && was[b] == b.Contents()
  }

  ghost predicate AllInRange(bs: seq<Buffer>, was: map<Buffer, Cell>, n: nat)
    requires forall b :: b in bs ==> b in was
  {
    forall b :: b in bs ==> InRange(was[b], n)
  }

  /** Each buffer is as it was or restored. */
  ghost predicate Touched(bs: seq<Buffer>, was: map<Buffer, Cell>, buffers: seq<Data>)
    reads set b | b in bs
  {
    forall b :: b in bs ==> b in was && (b.Contents() == was[b] || b.Contents() == Restored(was[b], buffers))
  }

  ghost predicate AllRestored(bs: seq<Buffer>, was: map<Buffer, Cell>, buffers: seq<Data>)
    reads set b | b in bs
  {
    forall b :: b in bs ==> b in was && b.Contents() == Restored(was[b], buffers)
  }

  /** Replaces each placeholder by the data of its number; an index out of range would panic. */
  method Detach(v: Value, buffers: seq<Data>, ghost was: map<Buffer, Cell>) returns (r: Outcome)
    requires Contents(Buffers(v), was)
    modifies set b | b in Buffers(v)
    ensures r.Done? <==> Addressable(v) && AllInRange(Buffers(v), was, |buffers|)
    ensures r.OutOfRange? ==> !AllInRange(Buffers(v), was, |buffers|)
    ensures Touched(Buffers(v), was, buffers) && (r.Done? ==> AllRestored(Buffers(v), was, buffers))
    decreases v, 1
  {
    match v
    case Plain =>
      r := Done;
    case Unaddressable =>
      r := NotAddressable;
    case Held(b) =>
      assert Buffers(v)[0] == b;
      if !b.isBinary {
        return Done;
      }
      if b.num >= |buffers| {
        assert !InRange(was[b], |buffers|);
        return OutOfRange;
      }
      b.num, b.isBinary, b.data := 0, false, buffers[b.num];
      r := Done;
    case Parts(_, _) =>
      r := DetachParts(v, buffers, was);
  }

  /** A buffer met again is in range and restored as it was the first time. */
  lemma RestoredAgain(c: Cell, buffers: seq<Data>)
    ensures Restored(Restored(c, buffers), buffers) == Restored(c, buffers)
    ensures InRange(Restored(c, buffers), |buffers|) == InRange(c, |buffers|)
  {
  }

  method DetachParts(v: Value, buffers: seq<Data>, ghost was: map<Buffer, Cell>) returns (r: Outcome)
    requires v.Parts? && Contents(Buffers(v), was)
    modifies set b | b in Buffers(v)
    ensures r.Done? <==> Addressable(v) && AllInRange(Buffers(v), was, |buffers|)
    ensures r.OutOfRange? ==> !AllInRange(Buffers(v), was, |buffers|)
    ensures Touched(Buffers(v), was, buffers) && (r.Done? ==> AllRestored(Buffers(v), was, buffers))
    decreases v, 0
  {
    var i := 0;
    ghost var all, seen: seq<Buffer> := Buffers(v), [];
    while i < |v.parts|
      invariant 0 <= i <= |v.parts| && seen == BuffersOf(v, i) && all == Buffers(v)
      invariant forall k :: 0 <= k < i ==> Addressable(v.parts[k])
      invariant forall b :: b in seen ==> b in was && InRange(was[b], |buffers|)
      invariant AllRestored(seen, was, buffers) && Touched(all, was, buffers)
    {
      PartIsIn(v, i);
      r := DetachNext(v.parts[i], buffers, seen, all, was);
      if !r.Done? {
        return;
      }
      seen := seen + Buffers(v.parts[i]);
      i := i + 1;
    }
    r := Done;
  }

  /** One more part: those `seen` before stay restored, even where it shares buffers with them. */
  method DetachNext(v: Value, buffers: seq<Data>,
          ghost seen: seq<Buffer>, ghost all: seq<Buffer>, ghost was: map<Buffer, Cell>)
      returns (r: Outcome)
    requires (forall b :: b in Buffers(v) ==> b in all)
    requires AllRestored(seen, was, buffers) && Touched(all, was, buffers)
    modifies set b | b in Buffers(v)
    ensures r.Done? <==> Addressable(v) && forall b :: b in Buffers(v) ==> InRange(was[b], |buffers|)
    ensures r.OutOfRange? ==> exists b :: b in Buffers(v) && !InRange(was[b], |buffers|)
    ensures Touched(all, was, buffers) && (r.Done? ==> AllRestored(seen + Buffers(v), was, buffers))
    decreases v, 2
  {
    ghost var now := map b | b in Buffers(v) :: b.Contents();
    forall b | b in Buffers(v)
      ensures Restored(now[b], buffers) == Restored(was[b], buffers)
      ensures InRange(now[b], |buffers|) <==> InRange(was[b], |buffers|)
    {
      RestoredAgain(was[b], buffers);
    }
    r := Detach(v, buffers, now);
  }

  // ---------- over the wire and back ----------

  datatype Frame = Text(text: Data) | Binary(data: Data)

  /** Reads the announced number of binary frames. */
  method ReadBuffers(count: nat, frames: seq<Frame>) returns (r: B.Option<seq<Data>>)
    ensures r.Some? <==> count <= |frames| && forall i :: 0 <= i < count ==> frames[i].Binary?
    ensures r.Some? ==> |r.value| == count && forall i :: 0 <= i < count ==> r.value[i] == frames[i].data
  {
    var buffers: seq<Data> := [];
    var i := 0;
    while i < count
      invariant 0 <= i <= count && i <= |frames| && |buffers| == i
      invariant forall k :: 0 <= k < i ==> frames[k].Binary? && buffers[k] == frames[k].data
    {
      if i == |frames| || !frames[i].Binary? {
        return B.None;
      }
      buffers := buffers + [frames[i].data];
      i := i + 1;
    }
    r := B.Some(buffers);
  }

  /** What the JSON decoder makes of a buffer the encoder has numbered: a placeholder without data. */
  function Placeholder(c: Cell): Cell
    requires c.isBinary
  {
    Cell(c.num, true, [])
  }

  /** Attached and detached, every buffer has its own data again, wherever it stands and however often; no number
      is out of range. */
  lemma AttachDetachRoundTrip(bs: seq<Buffer>, sent: seq<Data>)
    requires Numbered(Numbers(bs, 0)) && DataOf(bs, sent)
    ensures forall b :: b in bs ==> b.isBinary && InRange(Placeholder(b.Contents()), |sent|)
                                    && Restored(Placeholder(b.Contents()), sent) == Cell(0, false, b.data)
  {
    forall b | b in bs ensures b.isBinary && b.num < |sent| && sent[b.num] == b.data {
      NumbersFind(bs, 0, b);
    }
  }

  /** Buffers that are not shared get the numbers from `index` on, each exactly one, in the order of the walk. */
  lemma NumbersInOrder(bs: seq<Buffer>, index: nat, i: nat)
    requires i < |bs| && forall j, k :: 0 <= j < k < |bs| ==> bs[j] != bs[k]
    ensures bs[i] in Numbers(bs, index) && Numbers(bs, index)[bs[i]] == index + i
  {
    NumbersFind(bs, index, bs[i]);
  }

  /** Each key of a map has one part. */
  predicate KeysFit(v: Value)
    requires v.Parts?
  {
    match v.kind
    case Listed => true
    case Keyed(keys) => |keys| == |v.parts| && forall i, j :: 0 <= i < j < |keys| ==> keys[i] != keys[j]
  }

  /** The part `i` of `w` stands where the part `j` of `v` does: at the same index, or under the same key. */
  predicate SamePlace(w: Value, i: nat, v: Value, j: nat)
    requires w.Parts? && v.Parts? && i < |w.parts| && j < |v.parts|
  {
    match v.kind
    case Listed => i == j
    case Keyed(keys) => w.kind.Keyed? && i < |w.kind.keys| && j < |keys| && w.kind.keys[i] == keys[j]
  }

  /** The part `i` of `w` has its place in `v`. */
  ghost predicate HasPlace(w: Value, i: nat, v: Value)
    requires w.Parts? && v.Parts? && i < |w.parts|
  {
    exists j :: 0 <= j < |v.parts| && SamePlace(w, i, v, j)
  }

  /** The same number of parts, and for each part of one a part of the other in the same place. */
  ghost predicate SameShape(w: Value, v: Value)
    requires w.Parts? && v.Parts?
  {
    && w.kind.Keyed? == v.kind.Keyed? && KeysFit(w) && KeysFit(v) && |w.parts| == |v.parts|
    && (forall i :: 0 <= i < |w.parts| ==> HasPlace(w, i, v))
    && (forall j :: 0 <= j < |v.parts| ==> HasPlace(v, j, w))
  }

  /** The tree the JSON decoder makes of the text of `v`: the same shape, and a placeholder for each buffer. The
      maps are the contents of the buffers of each tree. */
  ghost predicate Mirrors(w: Value, v: Value, inW: map<Buffer, Cell>, inV: map<Buffer, Cell>)
    decreases v
  {
    match v
    case Plain => w.Plain?
    case Unaddressable => false
    case Held(b) =>
      && w.Held? && b in inV && w.buffer in inW
      && inV[b].isBinary && inW[w.buffer] == Placeholder(inV[b])
    case Parts(_, parts) =>
      && w.Parts? && SameShape(w, v)
      && forall i, j :: 0 <= i < |w.parts| && 0 <= j < |parts| && SamePlace(w, i, v, j) ==>
                          Mirrors(w.parts[i], parts[j], inW, inV)
  }

  /** Every buffer of `w` holds the data of the buffer of `v` in the same place. */
  ghost predicate Carries(w: Value, v: Value, outW: map<Buffer, Cell>, inV: map<Buffer, Cell>)
    decreases v
  {
    match v
    case Plain => w.Plain?
    case Unaddressable => false
    case Held(b) => w.Held? && b in inV && w.buffer in outW && outW[w.buffer] == Cell(0, false, inV[b].data)
    case Parts(_, parts) =>
      && w.Parts? && SameShape(w, v)
      && forall i, j :: 0 <= i < |w.parts| && 0 <= j < |parts| && SamePlace(w, i, v, j) ==>
                          Carries(w.parts[i], parts[j], outW, inV)
  }

  /** The placeholders of these contents are all in range of the data sent and stand for their own. */
  ghost predicate Recoverable(bs: seq<Buffer>, inV: map<Buffer, Cell>, sent: seq<Data>) {
    forall b :: b in bs ==> b in inV && inV[b].isBinary && inV[b].num < |sent| && sent[inV[b].num] == inV[b].data
  }

  lemma PartBuffer(v: Value, n: nat, b: Buffer) returns (i: nat)
    requires v.Parts? && n <= |v.parts| && b in BuffersOf(v, n)
    ensures i < n && b in Buffers(v.parts[i])
  {
    i := n - 1;
    if b !in Buffers(v.parts[i]) {
      i := PartBuffer(v, n - 1, b);
    }
  }

  /** A mirrored tree has placeholders only, all in range. */
  lemma {:induction false} MirrorInRange(w: Value, v: Value,
          inW: map<Buffer, Cell>, inV: map<Buffer, Cell>, sent: seq<Data>)
    requires Mirrors(w, v, inW, inV) && Recoverable(Buffers(v), inV, sent)
    ensures Addressable(w) && forall b :: b in Buffers(w) ==> b in inW && InRange(inW[b], |sent|)
    decreases v
  {
    if v.Parts? {
      forall i | 0 <= i < |w.parts|
        ensures Addressable(w.parts[i]) && forall b :: b in Buffers(w.parts[i]) ==> b in inW && InRange(inW[b], |sent|)
      {
        assert HasPlace(w, i, v);
        var j :| 0 <= j < |v.parts| && SamePlace(w, i, v, j);
        PartIsIn(v, j);
        MirrorInRange(w.parts[i], v.parts[j], inW, inV, sent);
      }
      forall b | b in Buffers(w) ensures b in inW && InRange(inW[b], |sent|) {
        var i := PartBuffer(w, |w.parts|, b);
      }
    }
  }

  /** Restoring them puts the data back in every place. */
  lemma {:induction false} MirrorIsRestored(w: Value, v: Value, inW: map<Buffer, Cell>, outW: map<Buffer, Cell>,
          inV: map<Buffer, Cell>, sent: seq<Data>)
    requires Mirrors(w, v, inW, inV) && Recoverable(Buffers(v), inV, sent)
    requires forall b :: b in Buffers(w) ==> b in inW && b in outW && outW[b] == Restored(inW[b], sent)
    ensures Carries(w, v, outW, inV)
    decreases v
  {
    match v
    case Held(b) => assert b in Buffers(v) && w.buffer in Buffers(w);
    case Parts(_, _) =>
      forall i, j | 0 <= i < |w.parts| && 0 <= j < |v.parts| && SamePlace(w, i, v, j)
        ensures Carries(w.parts[i], v.parts[j], outW, inV)
      {
        PartIsIn(v, j);
        PartIsIn(w, i);
        MirrorIsRestored(w.parts[i], v.parts[j], inW, outW, inV, sent);
      }
    case _ =>
  }

  /** The attachment round trip. `v` has been attached, its buffers' data travel as binary frames behind its text,
      and `w` is what that text is decoded into, its maps walked in an order of their own. Reading the frames and
      detaching `w` succeeds, and every buffer of `w` has the data of the buffer of `v` in its place, by index or by
      key; `v` is left alone. */
  method ReceiveArgs(v: Value, w: Value, frames: seq<Frame>, ghost inV: map<Buffer, Cell>, ghost inW: map<Buffer, Cell>)
      returns (r: Outcome, ghost outW: map<Buffer, Cell>)
    requires Numbered(Numbers(Buffers(v), 0)) && Contents(Buffers(v), inV) && Contents(Buffers(w), inW)
    requires Mirrors(w, v, inW, inV) && forall b :: b in Buffers(w) ==> b !in Buffers(v)
    requires |frames| == |Buffers(v)|
    requires forall i :: 0 <= i < |frames| ==> frames[i] == Binary(Buffers(v)[i].data)
    modifies set b | b in Buffers(w)
    ensures r == Done && Contents(Buffers(v), inV)
    ensures Contents(Buffers(w), outW) && Carries(w, v, outW, inV)
  {
    ghost var data := seq(|frames|, i requires 0 <= i < |frames| => frames[i].data);
    SentIsRecoverable(Buffers(v), inV, data);
    MirrorInRange(w, v, inW, inV, data);
    var sent := ReadBuffers(|frames|, frames);
    assert sent.value == data;
    r := Detach(w, sent.value, inW);
    outW := map b | b in Buffers(w) :: b.Contents();
    MirrorIsRestored(w, v, inW, outW, inV, data);
  }

  /** What `Attach` numbers and sends is recoverable. */
  lemma SentIsRecoverable(bs: seq<Buffer>, inV: map<Buffer, Cell>, sent: seq<Data>)
    requires Contents(bs, inV) && Numbered(Numbers(bs, 0)) && DataOf(bs, sent)
    ensures Recoverable(bs, inV, sent)
  {
    AttachDetachRoundTrip(bs, sent);
    forall b | b in bs ensures sent[inV[b].num] == inV[b].data {
      NumbersFind(bs, 0, b);
    }
  }
}
