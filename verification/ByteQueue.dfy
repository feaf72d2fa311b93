/** The byte queue that a Buffer stands for, and the size arithmetic it is managed with. */
module ByteQueue {

  type Byte = bv8

  const CHEAP_PREPEND: nat := 8
  const INITIAL_SIZE: nat := 1024

  // ----- room

  /** size_t arithmetic wraps at this. */
  const SIZE_T_RANGE: nat := 0x1_0000_0000_0000_0000

  /** The longest vector of bytes there can be; asking for more throws. */
  const MAX_SIZE: nat := 0x7FFF_FFFF_FFFF_FFFF

  function SizeT(n: int): (r: nat)
    ensures r < 0x1_0000_0000_0000_0000 && (0 <= n < 0x1_0000_0000_0000_0000 ==> r == n)
  {
    n % SIZE_T_RANGE
  }

  datatype Plan = Keep | Compact | Resize(size: nat) | Throw

  /** What ensureWritableBytes and makeSpace decide, in the arithmetic they decide it in. */
  function PlanFor(size: nat, reader: nat, writer: nat, len: nat): Plan {
    if SizeT(size - writer) >= len then Keep
    else if SizeT(SizeT(size - writer) + reader) < SizeT(len + CHEAP_PREPEND) then
      var n := SizeT(writer + len);
      if n > MAX_SIZE then Throw else Resize(n)
    else Compact
  }

  /** A plan is right if it leaves room for `len` and loses no readable byte: compaction copies
      forward, so it must move the bytes down or leave them where they are, and a resize must not cut
      them off. Refusing is right when no vector is long enough. */
  predicate Right(plan: Plan, size: nat, reader: nat, writer: nat, len: nat) {
    match plan
    case Keep => len <= size - writer
    case Compact => CHEAP_PREPEND <= reader && len <= size - (CHEAP_PREPEND + writer - reader)
    case Resize(n) => writer + len <= n
    case Throw => writer + len > MAX_SIZE
  }

  /** The decision is right exactly when the room is there already or neither of the two sums with
      `len` wraps. */
  lemma PlanIsRightUnlessSumsWrap(size: nat, reader: nat, writer: nat, len: nat)
    requires reader <= writer <= size <= MAX_SIZE && len < SIZE_T_RANGE
    requires CHEAP_PREPEND + INITIAL_SIZE <= size
    ensures Right(PlanFor(size, reader, writer, len), size, reader, writer, len) <==>
            len <= size - writer || (len + CHEAP_PREPEND < SIZE_T_RANGE && writer + len < SIZE_T_RANGE)
  {
    var room := size - writer;
    assert SizeT(room) == room && SizeT(room + reader) == room + reader;
    assert SizeT(len + CHEAP_PREPEND) ==
      if len + CHEAP_PREPEND < SIZE_T_RANGE then len + CHEAP_PREPEND else len + CHEAP_PREPEND - SIZE_T_RANGE;
    assert SizeT(writer + len) ==
      if writer + len < SIZE_T_RANGE then writer + len else writer + len - SIZE_T_RANGE;
  }

  /** A buffer as it starts out, asked for the largest length: the sum with 8 wraps to 7. */
  lemma WrongPlanHappens()
    ensures var plan := PlanFor(1032, 8, 8, SIZE_T_RANGE - 1);
      plan.Compact? && !Right(plan, 1032, 8, 8, SIZE_T_RANGE - 1)
  {
  }

  /** When it is right: compaction happens exactly if the room at both ends together will do, and then
      with the bytes strictly above their new place; a resize stays below twice the demand on top of
      what is readable. */
  lemma PlanBounds(size: nat, reader: nat, writer: nat, len: nat)
    requires reader <= writer <= size <= MAX_SIZE
    requires len + CHEAP_PREPEND < SIZE_T_RANGE && writer + len < SIZE_T_RANGE
    ensures var plan := PlanFor(size, reader, writer, len);
      && (plan.Keep? <==> len <= size - writer)
      && (plan.Compact? <==> len > size - writer && len + 8 <= size - writer + reader)
      && (plan.Compact? ==> reader > 8 && len <= size - (8 + writer - reader))
      && (plan.Resize? ==> plan.size == writer + len && size < plan.size < (writer - reader) + 2 * len + 8)
      && (plan.Throw? <==>
            len + 8 > size - writer + reader && len > size - writer && writer + len >= 0x8000_0000_0000_0000)
  {
    var room := size - writer;
    assert SizeT(room) == room && SizeT(room + reader) == room + reader;
    assert SizeT(len + CHEAP_PREPEND) == len + CHEAP_PREPEND && SizeT(writer + len) == writer + len;
  }

  // ----- the queue

  /** `offset` is how far the end of what is retrieved lies beyond peek(). */
  datatype Op =
    | Ensure(len: nat)
    | Write(data: seq<Byte>)
    | Retrieve(len: nat)
    | RetrieveUntil(offset: nat)
    | RetrieveAll
    | Prepend(data: seq<Byte>)

  predicate Possible(q: seq<Byte>, op: Op) {
    match op
    case Retrieve(len) => len <= |q|
    case RetrieveUntil(offset) => offset <= |q|
    case _ => true
  }

  function Apply(q: seq<Byte>, op: Op): seq<Byte>
    requires Possible(q, op)
  {
    match op
    case Ensure(_) => q
    case Write(data) => q + data
    case Retrieve(len) => q[len..]
    case RetrieveUntil(offset) => q[offset..]
    case RetrieveAll => []
    case Prepend(data) => data + q
  }

  function Taken(q: seq<Byte>, op: Op): seq<Byte>
    requires Possible(q, op)
  {
    match op
    case Retrieve(len) => q[..len]
    case RetrieveUntil(offset) => q[..offset]
    case RetrieveAll => q
    case _ => []
  }

  predicate AllPossible(q: seq<Byte>, ops: seq<Op>)
    decreases |ops|
  {
    ops == [] || (Possible(q, ops[0]) && AllPossible(Apply(q, ops[0]), ops[1..]))
  }

  function ApplyAll(q: seq<Byte>, ops: seq<Op>): seq<Byte>
    requires AllPossible(q, ops)
    decreases |ops|
  {
    if ops == [] then q else ApplyAll(Apply(q, ops[0]), ops[1..])
  }

  function TakenAll(q: seq<Byte>, ops: seq<Op>): seq<Byte>
    requires AllPossible(q, ops)
    decreases |ops|
  {
    if ops == [] then [] else Taken(q, ops[0]) + TakenAll(Apply(q, ops[0]), ops[1..])
  }

  function WrittenBy(op: Op): seq<Byte> {
    if op.Write? then op.data else []
  }

  /** Everything written, in order. */
  function Written(ops: seq<Op>): seq<Byte> {
    if ops == [] then [] else WrittenBy(ops[0]) + Written(ops[1..])
  }

  predicate PrependFree(ops: seq<Op>) {
    forall i | 0 <= i < |ops| :: !ops[i].Prepend?
  }

  /** Nothing is lost, repeated or reordered: what was taken out and what is left are together what
      was there and what was written. */
  lemma {:induction false} WrittenIsTakenOrLeft(q: seq<Byte>, ops: seq<Op>)
    requires AllPossible(q, ops) && PrependFree(ops)
    ensures TakenAll(q, ops) + ApplyAll(q, ops) == q + Written(ops)
    decreases |ops|
  {
    if ops == [] {
    } else {
      var r := Apply(q, ops[0]);
      assert !ops[0].Prepend?;
      assert PrependFree(ops[1..]);
      WrittenIsTakenOrLeft(r, ops[1..]);
      StepConserves(q, ops[0]);
      Regroup(Taken(q, ops[0]), TakenAll(r, ops[1..]), ApplyAll(r, ops[1..]), r, Written(ops[1..]));
      Regroup(q, WrittenBy(ops[0]), Written(ops[1..]), [], []);
    }
  }

  lemma StepConserves(q: seq<Byte>, op: Op)
    requires Possible(q, op) && !op.Prepend?
    ensures Taken(q, op) + Apply(q, op) == q + WrittenBy(op)
  {
  }

  lemma Regroup(a: seq<Byte>, b: seq<Byte>, c: seq<Byte>, d: seq<Byte>, e: seq<Byte>)
    ensures (a + b) + c == a + (b + c)
    ensures b + c == d + e ==> (a + b) + c == (a + d) + e
  {
  }

  lemma PrependFreePrefix(ops: seq<Op>, op: Op)
    ensures PrependFree(ops + [op]) <==> PrependFree(ops) && !op.Prepend?
  {
    var more := ops + [op];
    assert more[|ops|] == op;
    assert forall i | 0 <= i < |ops| :: more[i] == ops[i];
  }

  lemma {:induction false} OneMore(q: seq<Byte>, ops: seq<Op>, op: Op)
    requires AllPossible(q, ops) && Possible(ApplyAll(q, ops), op)
    ensures AllPossible(q, ops + [op])
    ensures ApplyAll(q, ops + [op]) == Apply(ApplyAll(q, ops), op)
    ensures TakenAll(q, ops + [op]) == TakenAll(q, ops) + Taken(ApplyAll(q, ops), op)
    decreases |ops|
  {
    hide Apply, Taken, Possible;
    if ops == [] {
      assert ops + [op] == [op] && [op][1..] == [];
      assert AllPossible(Apply(q, op), []);
    } else {
      assert (ops + [op])[1..] == ops[1..] + [op];
      OneMore(Apply(q, ops[0]), ops[1..], op);
    }
  }

  /** `now` is what the operations make of `start`, and `out` is what they took. */
  predicate Refines(start: seq<Byte>, ops: seq<Op>, now: seq<Byte>, out: seq<Byte>) {
    AllPossible(start, ops) && now == ApplyAll(start, ops) && out == TakenAll(start, ops)
  }

  lemma RefinesNext(start: seq<Byte>, ops: seq<Op>, now: seq<Byte>, out: seq<Byte>, op: Op)
    requires Refines(start, ops, now, out) && Possible(now, op)
    ensures Refines(start, ops + [op], Apply(now, op), out + Taken(now, op))
  {
    hide Apply, Taken, Possible;
    OneMore(start, ops, op);
  }

  // ----- two queues that change places

  datatype PairOp = OnFirst(op: Op) | OnSecond(op: Op) | SwapBoth

  /** After an odd number of swaps each buffer has the contents that the other one started with. */
  predicate Crossed(ops: seq<PairOp>) {
    ops != [] && Crossed(ops[..|ops| - 1]) != ops[|ops| - 1].SwapBoth?
  }

  /** Whether `op` meets the contents that the first buffer (or the second) started with. */
  predicate Meets(crossed: bool, op: PairOp, first: bool) {
    match op
    case SwapBoth => false
    case OnFirst(_) => crossed != first
    case OnSecond(_) => crossed == first
  }

  /** The operations that met those contents, whichever buffer they were in. */
  function OpsOn(ops: seq<PairOp>, first: bool): seq<Op> {
    if ops == [] then []
    else
      var init, last := ops[..|ops| - 1], ops[|ops| - 1];
      if Meets(Crossed(init), last, first) then OpsOn(init, first) + [last.op] else OpsOn(init, first)
  }

  predicate NoPrepends(ops: seq<PairOp>) {
    forall i | 0 <= i < |ops| :: !ops[i].SwapBoth? ==> !ops[i].op.Prepend?
  }

  lemma {:induction false} NoPrependsOnEither(ops: seq<PairOp>, first: bool)
    requires NoPrepends(ops)
    ensures PrependFree(OpsOn(ops, first))
    decreases |ops|
  {
    if ops == [] {
    } else {
      NoPrependsOnEither(ops[..|ops| - 1], first);
    }
  }

  lemma OpsOnSnoc(ops: seq<PairOp>, op: PairOp)
    ensures Crossed(ops + [op]) == (Crossed(ops) != op.SwapBoth?)
    ensures forall first ::
      OpsOn(ops + [op], first) ==
        if Meets(Crossed(ops), op, first) then OpsOn(ops, first) + [op.op] else OpsOn(ops, first)
    ensures NoPrepends(ops + [op]) <==> NoPrepends(ops) && (op.SwapBoth? || !op.op.Prepend?)
  {
    var more := ops + [op];
    assert more[..|ops|] == ops && more[|ops|] == op;
    assert forall i | 0 <= i < |ops| :: more[i] == ops[i];
  }

  /** What `op` makes of the contents `p` and `q` of the two buffers. */
  predicate Effect(op: PairOp, p: seq<Byte>, q: seq<Byte>, p': seq<Byte>, q': seq<Byte>, bytes: seq<Byte>) {
    match op
    case OnFirst(o) => Possible(p, o) && p' == Apply(p, o) && q' == q && bytes == Taken(p, o)
    case OnSecond(o) => Possible(q, o) && p' == p && q' == Apply(q, o) && bytes == Taken(q, o)
    case SwapBoth => p' == q && q' == p && bytes == []
  }

  /** Where the contents are now that the first buffer (or the second) started with. */
  function StreamNow(crossed: bool, first: bool, p: seq<Byte>, q: seq<Byte>): seq<Byte> {
    if crossed == first then q else p
  }

  lemma StreamNext(start: seq<Byte>, done: seq<PairOp>, op: PairOp, first: bool, p: seq<Byte>, q: seq<Byte>,
                   p': seq<Byte>, q': seq<Byte>, out: seq<Byte>, bytes: seq<Byte>)
    requires Refines(start, OpsOn(done, first), StreamNow(Crossed(done), first, p, q), out)
    requires Effect(op, p, q, p', q', bytes)
    ensures Refines(start, OpsOn(done + [op], first), StreamNow(Crossed(done + [op]), first, p', q'),
                    if Meets(Crossed(done), op, first) then out + bytes else out)
  {
    OpsOnSnoc(done, op);
    if Meets(Crossed(done), op, first) {
      RefinesNext(start, OpsOn(done, first), StreamNow(Crossed(done), first, p, q), out, op.op);
    }
  }

  lemma RefinesConserves(start: seq<Byte>, ops: seq<PairOp>, first: bool, now: seq<Byte>, out: seq<Byte>)
    requires Refines(start, OpsOn(ops, first), now, out) && NoPrepends(ops)
    ensures out + now == start + Written(OpsOn(ops, first))
  {
    NoPrependsOnEither(ops, first);
    WrittenIsTakenOrLeft(start, OpsOn(ops, first));
  }
}
