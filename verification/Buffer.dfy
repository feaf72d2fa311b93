/** The growable buffer: readable bytes between two indices into an array that is compacted in place
    or replaced by a longer one. */
module Buffers {
  import opened ByteQueue

  class Buffer {
    var buffer: array<Byte>
    var readerIndex: nat
    var writerIndex: nat

    ghost predicate Valid()
      reads this
    {
      && readerIndex <= writerIndex <= buffer.Length <= MAX_SIZE
      && CHEAP_PREPEND + INITIAL_SIZE <= buffer.Length
    }

    ghost function Readable(): seq<Byte>
      requires Valid()
      reads this, buffer
    {
      buffer[readerIndex..writerIndex]
    }

    /** The indices start where retrieveAll puts them. */
    constructor ()
      ensures Valid() && fresh(buffer) && Readable() == [] && readerIndex == 8 && buffer.Length == 1032
    {
      buffer := new Byte[CHEAP_PREPEND + INITIAL_SIZE];
      readerIndex, writerIndex := CHEAP_PREPEND, CHEAP_PREPEND;
    }

    function ReadableBytes(): (n: nat)
      requires Valid()
      reads this, buffer
      ensures n == |Readable()|
    {
      writerIndex - readerIndex
    }

    function WritableBytes(): nat
      requires Valid()
      reads this
    {
      buffer.Length - writerIndex
    }

    method Retrieve(len: nat)
      requires Valid() && len <= |Readable()|
      modifies this`readerIndex
      ensures Valid() && Readable() == old(Readable())[len..]
      ensures readerIndex == old(readerIndex) + len
    {
      readerIndex := readerIndex + len;
    }

    /** `end` is a position in the array, as the pointer argument is. */
    method RetrieveUntil(end: nat)
      requires Valid() && readerIndex <= end <= writerIndex
      modifies this`readerIndex
      ensures Valid() && readerIndex == end && Readable() == old(buffer[end..writerIndex])
    {
      Retrieve(end - readerIndex);
    }

    method RetrieveAll()
      requires Valid()
      modifies this`readerIndex, this`writerIndex
      ensures Valid() && Readable() == [] && readerIndex == 8
    {
      readerIndex := CHEAP_PREPEND;
      writerIndex := CHEAP_PREPEND;
    }

    method RetrieveAsString() returns (str: seq<Byte>)
      requires Valid()
      modifies this`readerIndex, this`writerIndex
      ensures Valid() && Readable() == [] && str == old(Readable()) && readerIndex == 8
    {
      str := buffer[readerIndex..writerIndex];
      RetrieveAll();
    }

    /** Answers false for the length_error that a vector cannot be made long enough. */
    method EnsureWritableBytes(len: nat) returns (ok: bool)
      requires Valid()
      requires len <= WritableBytes() || (len + CHEAP_PREPEND < SIZE_T_RANGE && writerIndex + len < SIZE_T_RANGE)
      modifies this, buffer
      ensures Valid() && Readable() == old(Readable())
      ensures buffer == old(buffer) || fresh(buffer)
      ensures ok ==> WritableBytes() >= len
      ensures ok <==> len <= old(WritableBytes()) || old(PlanFor(buffer.Length, readerIndex, writerIndex, len)) != Throw
      ensures !ok ==> old(writerIndex) + len > MAX_SIZE && readerIndex == old(readerIndex)
      ensures buffer.Length == old(buffer.Length) || buffer.Length < |Readable()| + 2 * len + CHEAP_PREPEND
      ensures readerIndex == old(readerIndex) || readerIndex == CHEAP_PREPEND
    {
      ok := true;
      if WritableBytes() < len {
        PlanBounds(buffer.Length, readerIndex, writerIndex, len);
        ok := MakeSpace(len);
      }
    }

    method MakeSpace(len: nat) returns (ok: bool)
      requires Valid() && WritableBytes() < len
      requires len + CHEAP_PREPEND < SIZE_T_RANGE && writerIndex + len < SIZE_T_RANGE
      modifies this, buffer
      ensures Valid() && Readable() == old(Readable())
      ensures buffer == old(buffer) || fresh(buffer)
      ensures match PlanFor(old(buffer.Length), old(readerIndex), old(writerIndex), len)
        case Resize(n) => ok && buffer.Length == n && readerIndex == old(readerIndex)
        case Compact => ok && buffer == old(buffer) && readerIndex == CHEAP_PREPEND
        case Throw => !ok && buffer == old(buffer) && readerIndex == old(readerIndex)
        case Keep => false
      ensures ok ==> WritableBytes() >= len
    {
      PlanBounds(buffer.Length, readerIndex, writerIndex, len);
      if SizeT(SizeT(buffer.Length - writerIndex) + readerIndex) < SizeT(len + CHEAP_PREPEND) {
        ok := SizeT(writerIndex + len) <= MAX_SIZE;
        if ok {
          Resize(SizeT(writerIndex + len));
        }
      } else {
        var readable := writerIndex - readerIndex;
        CopyDown(readable);
        readerIndex := CHEAP_PREPEND;
        writerIndex := readerIndex + readable;
        ok := true;
      }
    }

    /** The longer vector keeps the old elements and has zeros after them. */
    method Resize(size: nat)
      requires Valid() && buffer.Length < size <= MAX_SIZE
      modifies this`buffer
      ensures fresh(buffer) && buffer.Length == size
      ensures buffer[..old(buffer.Length)] == old(buffer[..])
      ensures Valid() && Readable() == old(Readable())
    {
      var longer := new Byte[size];
      forall i | 0 <= i < size {
        longer[i] := if i < buffer.Length then buffer[i] else 0;
      }
      ghost var before := buffer[..];
      buffer := longer;
      assert buffer[..|before|] == before;
      assert Readable() == before[readerIndex..writerIndex];
    }

    /** std::copy of the readable bytes to CHEAP_PREPEND, front to back: the ranges may overlap. */
    method CopyDown(readable: nat)
      requires Valid() && readable == writerIndex - readerIndex && CHEAP_PREPEND <= readerIndex
      modifies buffer
      ensures buffer[CHEAP_PREPEND..CHEAP_PREPEND + readable] == old(buffer[readerIndex..writerIndex])
    {
      ghost var before := buffer[..];
      for i := 0 to readable
        invariant buffer[CHEAP_PREPEND..CHEAP_PREPEND + i] == before[readerIndex..readerIndex + i]
        invariant buffer[readerIndex + i..] == before[readerIndex + i..]
      {
        assert buffer[readerIndex + i] == before[readerIndex + i] by {
          assert buffer[readerIndex + i..][0] == before[readerIndex + i..][0];
        }
        ghost var rest := buffer[readerIndex + i..];
        buffer[CHEAP_PREPEND + i] := buffer[readerIndex + i];
        assert buffer[readerIndex + i + 1..] == rest[1..];
      }
    }

    /** The bytes that the caller stores from beginWrite() on; they are not readable yet. */
    method StoreAtBeginWrite(data: seq<Byte>)
      requires Valid() && |data| <= WritableBytes()
      modifies buffer
      ensures Readable() == old(Readable())
      ensures buffer[writerIndex..writerIndex + |data|] == data
    {
      forall i | 0 <= i < |data| {
        buffer[writerIndex + i] := data[i];
      }
    }

    method HasWritten(len: nat)
      requires Valid() && len <= WritableBytes()
      modifies this`writerIndex
      ensures Valid()
      ensures Readable() == old(Readable()) + old(buffer[writerIndex..writerIndex + len])
    {
      writerIndex := writerIndex + len;
    }

    method Prepend(data: seq<Byte>)
      requires Valid() && |data| <= readerIndex
      modifies this`readerIndex, buffer
      ensures Valid() && Readable() == data + old(Readable())
      ensures readerIndex == old(readerIndex) - |data|
    {
      readerIndex := readerIndex - |data|;
      forall i | 0 <= i < |data| {
        buffer[readerIndex + i] := data[i];
      }
    }

    method Swap(rhs: Buffer)
      requires Valid() && rhs.Valid()
      modifies this, rhs
      ensures Valid() && rhs.Valid()
      ensures Readable() == old(rhs.Readable()) && rhs.Readable() == old(Readable())
      ensures buffer == old(rhs.buffer) && rhs.buffer == old(buffer)
      ensures readerIndex == old(rhs.readerIndex) && rhs.readerIndex == old(readerIndex)
      ensures writerIndex == old(rhs.writerIndex) && rhs.writerIndex == old(writerIndex)
    {
      buffer, rhs.buffer := rhs.buffer, buffer;
      readerIndex, rhs.readerIndex := rhs.readerIndex, readerIndex;
      writerIndex, rhs.writerIndex := rhs.writerIndex, writerIndex;
    }

    /** The bounds an operation has to keep on this layout. */
    predicate Fits(op: Op)
      requires Valid()
      reads this, buffer
    {
      match op
      case Ensure(len) =>
        len <= WritableBytes() ||
        (len + CHEAP_PREPEND < SIZE_T_RANGE && writerIndex + len < SIZE_T_RANGE
         && PlanFor(buffer.Length, readerIndex, writerIndex, len) != Throw)
      case Write(data) => |data| <= WritableBytes()
      case Retrieve(len) => len <= ReadableBytes()
      case RetrieveUntil(offset) => offset <= ReadableBytes()
      case RetrieveAll => true
      case Prepend(data) => |data| <= readerIndex
    }

    /** One operation within its bounds; `out` is what it hands back. */
    method Perform(op: Op) returns (out: seq<Byte>)
      requires Valid() && Fits(op)
      modifies this, buffer
      ensures Valid() && (buffer == old(buffer) || fresh(buffer))
      ensures Possible(old(Readable()), op)
      ensures Readable() == Apply(old(Readable()), op) && out == Taken(old(Readable()), op)
      ensures op.Ensure? ==> WritableBytes() >= op.len
      ensures op.Prepend? || readerIndex >= old(readerIndex) || readerIndex == CHEAP_PREPEND
    {
      out := [];
      match op
      case Ensure(len) =>
        var ok := EnsureWritableBytes(len);
        assert ok;
      case Write(data) =>
        StoreAtBeginWrite(data);
        HasWritten(|data|);
      case Retrieve(len) =>
        out := buffer[readerIndex..readerIndex + len];
        assert out == Readable()[..len];
        Retrieve(len);
      case RetrieveUntil(offset) =>
        out := buffer[readerIndex..readerIndex + offset];
        assert out == Readable()[..offset];
        RetrieveUntil(readerIndex + offset);
      case RetrieveAll => out := RetrieveAsString();
      case Prepend(data) => Prepend(data);
    }

    /** Any sequence of operations on one buffer, up to the first that is out of bounds: the buffer is the queue
        that the operations make, and without prepends it returns, in order, the bytes written. */
    method PerformAll(ops: seq<Op>) returns (n: nat, out: seq<Byte>)
      requires Valid()
      modifies this, buffer
      ensures Valid() && n <= |ops| && (n < |ops| ==> !Fits(ops[n]))
      ensures Refines(old(Readable()), ops[..n], Readable(), out)
      ensures PrependFree(ops[..n]) ==> out + Readable() == old(Readable()) + Written(ops[..n])
      ensures PrependFree(ops[..n]) && old(readerIndex) >= CHEAP_PREPEND ==> readerIndex >= CHEAP_PREPEND
    {
      hide Refines, Apply, Taken, Possible, PrependFree, Written;
      ghost var q := Readable();
      n, out := 0, [];
      NoneYet(q);
      assert ops[..0] == [];
      while n < |ops| && Fits(ops[n])
        invariant n <= |ops|
        invariant Valid() && (buffer == old(buffer) || fresh(buffer))
        invariant Refines(q, ops[..n], Readable(), out)
        invariant PrependFree(ops[..n]) && old(readerIndex) >= CHEAP_PREPEND ==> readerIndex >= CHEAP_PREPEND
      {
        ghost var now := Readable();
        var bytes := Perform(ops[n]);
        assert ops[..n + 1] == ops[..n] + [ops[n]];
        RefinesNext(q, ops[..n], now, out, ops[n]);
        PrependFreePrefix(ops[..n], ops[n]);
        out := out + bytes;
        n := n + 1;
      }
      if PrependFree(ops[..n]) {
        RefinesConserved(q, ops[..n], Readable(), out);
      }
    }
  }

  lemma NoneYet(q: seq<Byte>)
    ensures Refines(q, [], q, [])
  {
  }

  lemma RefinesConserved(start: seq<Byte>, ops: seq<Op>, now: seq<Byte>, out: seq<Byte>)
    requires Refines(start, ops, now, out) && PrependFree(ops)
    ensures out + now == start + Written(ops)
  {
    WrittenIsTakenOrLeft(start, ops);
  }

  predicate PairFits(a: Buffer, b: Buffer, op: PairOp)
    requires a.Valid() && b.Valid()
    reads a, b, a.buffer, b.buffer
  {
    match op
    case OnFirst(o) => a.Fits(o)
    case OnSecond(o) => b.Fits(o)
    case SwapBoth => true
  }

  method PerformOnPair(a: Buffer, b: Buffer, op: PairOp) returns (bytes: seq<Byte>)
    requires a.Valid() && b.Valid() && a != b && a.buffer != b.buffer && PairFits(a, b, op)
    modifies a, b, a.buffer, b.buffer
    ensures a.Valid() && b.Valid() && a.buffer != b.buffer
    ensures a.buffer in {old(a.buffer), old(b.buffer)} || fresh(a.buffer)
    ensures b.buffer in {old(a.buffer), old(b.buffer)} || fresh(b.buffer)
    ensures Effect(op, old(a.Readable()), old(b.Readable()), a.Readable(), b.Readable(), bytes)
    ensures op.SwapBoth? || !op.op.Prepend? ==>
      (old(a.readerIndex) >= CHEAP_PREPEND && old(b.readerIndex) >= CHEAP_PREPEND ==>
         a.readerIndex >= CHEAP_PREPEND && b.readerIndex >= CHEAP_PREPEND)
  {
    bytes := [];
    match op {
      case OnFirst(o) => bytes := a.Perform(o);
      case OnSecond(o) => bytes := b.Perform(o);
      case SwapBoth => a.Swap(b);
    }
  }

  /** Any sequence of operations on two buffers, swaps among them, up to the first out of bounds:
      each stream of bytes is the queue that the operations on it make, in whichever buffer it is,
      and without prepends it returns, in order, the bytes written to it. */
  method PerformPair(a: Buffer, b: Buffer, ops: seq<PairOp>) returns (n: nat, out1: seq<Byte>, out2: seq<Byte>)
    requires a.Valid() && b.Valid() && a != b && a.buffer != b.buffer
    modifies a, b, a.buffer, b.buffer
    ensures a.Valid() && b.Valid()
    ensures n <= |ops| && (n < |ops| ==> !PairFits(a, b, ops[n]))
    ensures var first := if Crossed(ops[..n]) then b else a;
      && Refines(old(a.Readable()), OpsOn(ops[..n], true), first.Readable(), out1)
      && (NoPrepends(ops[..n]) ==> out1 + first.Readable() == old(a.Readable()) + Written(OpsOn(ops[..n], true)))
    ensures var second := if Crossed(ops[..n]) then a else b;
      && Refines(old(b.Readable()), OpsOn(ops[..n], false), second.Readable(), out2)
      && (NoPrepends(ops[..n]) ==> out2 + second.Readable() == old(b.Readable()) + Written(OpsOn(ops[..n], false)))
    ensures NoPrepends(ops[..n]) && old(a.readerIndex) >= CHEAP_PREPEND && old(b.readerIndex) >= CHEAP_PREPEND ==>
      a.readerIndex >= CHEAP_PREPEND && b.readerIndex >= CHEAP_PREPEND
  {
    hide Refines, OpsOn, Crossed, NoPrepends, Written, Effect, Meets;
    ghost var q1, q2 := a.Readable(), b.Readable();
    n, out1, out2 := 0, [], [];
    var crossed := false;
    NothingYet(q1, q2);
    assert ops[..0] == [];
    while n < |ops| && PairFits(a, b, ops[n])
      invariant n <= |ops| && crossed == Crossed(ops[..n])
      invariant a.Valid() && b.Valid() && a.buffer != b.buffer
      invariant a.buffer in {old(a.buffer), old(b.buffer)} || fresh(a.buffer)
      invariant b.buffer in {old(a.buffer), old(b.buffer)} || fresh(b.buffer)
      invariant Refines(q1, OpsOn(ops[..n], true), StreamNow(crossed, true, a.Readable(), b.Readable()), out1)
      invariant Refines(q2, OpsOn(ops[..n], false), StreamNow(crossed, false, a.Readable(), b.Readable()), out2)
      invariant NoPrepends(ops[..n]) && old(a.readerIndex) >= CHEAP_PREPEND && old(b.readerIndex) >= CHEAP_PREPEND ==>
        a.readerIndex >= CHEAP_PREPEND && b.readerIndex >= CHEAP_PREPEND
    {
      ghost var done, p, q := ops[..n], a.Readable(), b.Readable();
      assert ops[..n + 1] == done + [ops[n]];
      OpsOnSnoc(done, ops[n]);
      var bytes := PerformOnPair(a, b, ops[n]);
      StreamNext(q1, done, ops[n], true, p, q, a.Readable(), b.Readable(), out1, bytes);
      StreamNext(q2, done, ops[n], false, p, q, a.Readable(), b.Readable(), out2, bytes);
      if Meets(crossed, ops[n], true) {
        out1 := out1 + bytes;
      }
      if Meets(crossed, ops[n], false) {
        out2 := out2 + bytes;
      }
      crossed := crossed != ops[n].SwapBoth?;
      n := n + 1;
    }
    if NoPrepends(ops[..n]) {
      RefinesConserves(q1, ops[..n], true, StreamNow(crossed, true, a.Readable(), b.Readable()), out1);
      RefinesConserves(q2, ops[..n], false, StreamNow(crossed, false, a.Readable(), b.Readable()), out2);
    }
  }

  lemma NothingYet(p: seq<Byte>, q: seq<Byte>)
    ensures !Crossed([]) && OpsOn([], true) == [] && OpsOn([], false) == []
    ensures Refines(p, [], p, []) && Refines(q, [], q, [])
  {
  }
}
