/** The bounded buffer that log lines are assembled in. */
module LogStreams {
  import opened Decimals

  const SMALL_BUFFER: nat := 4000
  const MAX_NUMERIC_SIZE: nat := 32

  const INT_RANGE: nat := 0x8000_0000

  /** The conversion of a size_t length to int: the low 32 bits, as a signed number. */
  function NarrowToInt(n: nat): (r: int)
    ensures -0x8000_0000 <= r < 0x8000_0000 && (n - r) % 0x1_0000_0000 == 0
  {
    var low := n % (2 * INT_RANGE);
    if low < INT_RANGE then low else low - 2 * INT_RANGE
  }

  // ----- what a stream of items leaves in the buffer

  datatype Item = Text(s: string) | Number(v: Int32)

  /** A text whose narrowed length is negative has no defined effect. */
  predicate Defined(item: Item) {
    item.Text? ==> NarrowToInt(|item.s|) >= 0
  }

  predicate AllDefined(items: seq<Item>) {
    forall i | 0 <= i < |items| :: Defined(items[i])
  }

  /** What was asked for. */
  function Raw(item: Item): string {
    match item
    case Text(s) => s
    case Number(v) => Decimal(v)
  }

  /** What goes into the buffer when the item is taken: a text is cut at its narrowed length. */
  function Rendered(item: Item): string
    requires Defined(item)
  {
    match item
    case Text(s) => s[..NarrowToInt(|s|)]
    case Number(v) => Decimal(v)
  }

  /** Text must leave a byte to spare; a number is taken only with room for the longest one. */
  predicate Fits(length: nat, item: Item) {
    match item
    case Text(s) => SMALL_BUFFER - length > NarrowToInt(|s|)
    case Number(_) => SMALL_BUFFER - length >= MAX_NUMERIC_SIZE
  }

  function Logged(contents: string, items: seq<Item>): string
    requires AllDefined(items)
    decreases |items|
  {
    if items == [] then contents
    else Logged(if Fits(|contents|, items[0]) then contents + Rendered(items[0]) else contents, items[1..])
  }

  /** The items taken, in order. */
  function Kept(length: nat, items: seq<Item>): seq<Item>
    requires AllDefined(items)
    decreases |items|
  {
    if items == [] then []
    else if Fits(length, items[0]) then [items[0]] + Kept(length + |Rendered(items[0])|, items[1..])
    else Kept(length, items[1..])
  }

  function RawConcat(items: seq<Item>): string {
    if items == [] then "" else Raw(items[0]) + RawConcat(items[1..])
  }

  lemma FittingItemLeavesRoom(contents: string, item: Item)
    requires |contents| < SMALL_BUFFER && Defined(item) && Fits(|contents|, item)
    ensures |contents + Rendered(item)| < SMALL_BUFFER
  {
    if item.Number? {
      DecimalIsShort(item.v);
    }
  }

  /** Any stream with a defined effect leaves what was in the buffer, and never fills it up. */
  lemma {:induction false} LoggingKeepsThePrefix(contents: string, items: seq<Item>)
    requires |contents| < SMALL_BUFFER && AllDefined(items)
    ensures contents <= Logged(contents, items) && |Logged(contents, items)| < SMALL_BUFFER
    decreases |items|
  {
    if items == [] {
    } else {
      var more := if Fits(|contents|, items[0]) then contents + Rendered(items[0]) else contents;
      if Fits(|contents|, items[0]) {
        FittingItemLeavesRoom(contents, items[0]);
      }
      hide Fits, Rendered;
      LoggingKeepsThePrefix(more, items[1..]);
    }
  }

  // ----- whole or not at all

  /** A text whose length survives the narrowing. */
  predicate IntSized(item: Item) {
    item.Text? ==> |item.s| < INT_RANGE
  }

  lemma IntSizedIsRaw(item: Item)
    requires IntSized(item)
    ensures Defined(item) && Rendered(item) == Raw(item)
  {
    if item.Text? {
      assert item.s[..|item.s|] == item.s;
    }
  }

  /** When one text goes in whole or not at all: if its length survives the narrowing, and otherwise
      only if the narrowed length is zero or too long for the room left, so that nothing goes in. */
  lemma TextIsWholeOrAbsentIff(contents: string, s: string)
    requires |contents| < SMALL_BUFFER && Defined(Text(s))
    ensures var after := Logged(contents, [Text(s)]);
      (after == contents + s || after == contents) <==>
        |s| < INT_RANGE || NarrowToInt(|s|) == 0 || SMALL_BUFFER - |contents| <= NarrowToInt(|s|)
  {
    LoggedOne(contents, Text(s));
    CutIsWholeIff(s);
    Cancel(contents, Rendered(Text(s)), s);
    hide NarrowToInt, Logged;
  }

  lemma CutIsWholeIff(s: string)
    requires Defined(Text(s))
    ensures |Rendered(Text(s))| == NarrowToInt(|s|)
    ensures Rendered(Text(s)) == s <==> |s| < INT_RANGE
  {
  }

  lemma Cancel(a: string, b: string, c: string)
    ensures a + b == a + c <==> b == c
    ensures a + b == a <==> b == ""
  {
    assert (a + b)[|a|..] == b && (a + c)[|a|..] == c;
  }

  lemma LoggedOne(contents: string, item: Item)
    requires Defined(item)
    ensures Logged(contents, [item]) == if Fits(|contents|, item) then contents + Rendered(item) else contents
  {
    assert [item][1..] == [];
  }

  /** A number is taken exactly if 32 bytes are left of the 4000, however short it is. */
  lemma NumberIsTakenWithRoomForAny(contents: string, v: Int32)
    ensures Logged(contents, [Number(v)]) == if |contents| <= 3968 then contents + Decimal(v) else contents
  {
    LoggedOne(contents, Number(v));
  }

  /** A text is taken exactly if one byte of the 4000 stays free. */
  lemma TextIsTakenWithAByteToSpare(contents: string, s: string)
    requires |s| < INT_RANGE
    ensures Logged(contents, [Text(s)]) == if |contents| + |s| < 4000 then contents + s else contents
  {
    IntSizedIsRaw(Text(s));
    CutIsWholeIff(s);
    hide NarrowToInt, Logged, Rendered;
    LoggedOne(contents, Text(s));
  }

  /** From 2^32 characters on a text may be cut: here all but five of them are lost. */
  lemma LongTextIsCut(s: string)
    requires |s| == 2 * INT_RANGE + 5
    ensures Defined(Text(s)) && Logged("", [Text(s)]) == s[..5] != s
  {
    LoggedOne("", Text(s));
    assert |s[..5]| == 5;
  }

  /** Nothing is cut, as long as lengths survive the narrowing: the buffer holds what it held, and
      then the kept items exactly as they were given. It never fills up. */
  lemma {:induction false} ItemsAreWholeOrAbsent(contents: string, items: seq<Item>)
    requires |contents| < SMALL_BUFFER
    requires forall i | 0 <= i < |items| :: IntSized(items[i])
    ensures AllDefined(items)
    ensures Logged(contents, items) == contents + RawConcat(Kept(|contents|, items))
    ensures |Logged(contents, items)| < SMALL_BUFFER
    decreases |items|
  {
    AllIntSizedAreDefined(items);
    if items == [] {
      assert contents + "" == contents;
    } else if Fits(|contents|, items[0]) {
      IntSizedIsRaw(items[0]);
      FittingItemLeavesRoom(contents, items[0]);
      hide Fits, Rendered;
      var more := contents + Raw(items[0]);
      ItemsAreWholeOrAbsent(more, items[1..]);
      RawConcatCons(contents, items[0], Kept(|more|, items[1..]));
      assert Kept(|contents|, items) == [items[0]] + Kept(|more|, items[1..]);
    } else {
      hide Fits, Rendered;
      ItemsAreWholeOrAbsent(contents, items[1..]);
    }
  }

  lemma AllIntSizedAreDefined(items: seq<Item>)
    requires forall i | 0 <= i < |items| :: IntSized(items[i])
    ensures AllDefined(items)
  {
    forall i | 0 <= i < |items| ensures Defined(items[i]) {
      IntSizedIsRaw(items[i]);
    }
  }

  lemma RawConcatCons(contents: string, item: Item, items: seq<Item>)
    ensures (contents + Raw(item)) + RawConcat(items) == contents + RawConcat([item] + items)
  {
    assert ([item] + items)[1..] == items;
  }

  lemma ShortItemFits(length: nat, item: Item)
    requires length + |Raw(item)| + MAX_NUMERIC_SIZE <= SMALL_BUFFER
    ensures IntSized(item) && Defined(item) && Fits(length, item) && Rendered(item) == Raw(item)
  {
    IntSizedIsRaw(item);
  }

  lemma {:induction false} ShortStreamsAreIntSized(items: seq<Item>)
    requires |RawConcat(items)| + MAX_NUMERIC_SIZE <= SMALL_BUFFER
    ensures forall i | 0 <= i < |items| :: IntSized(items[i])
    decreases |items|
  {
    if items == [] {
    } else {
      ShortItemFits(0, items[0]);
      hide Raw, IntSized;
      ShortStreamsAreIntSized(items[1..]);
      forall i | 0 <= i < |items| ensures IntSized(items[i]) {
        assert i > 0 ==> items[i] == items[1..][i - 1];
      }
    }
  }

  /** Only a short end of the buffer ever turns an item away: while MAX_NUMERIC_SIZE bytes and the
      items themselves fit, all are kept, and by the lemma above whole. */
  lemma {:induction false} ShortStreamsAreKept(length: nat, items: seq<Item>)
    requires length + |RawConcat(items)| + MAX_NUMERIC_SIZE <= SMALL_BUFFER
    ensures AllDefined(items) && Kept(length, items) == items
    decreases |items|
  {
    hide Fits, Rendered, Raw, IntSized, Defined, AllDefined;
    ShortStreamsAreIntSized(items);
    AllIntSizedAreDefined(items);
    if items == [] {
    } else {
      ShortItemFits(length, items[0]);
      ShortStreamsAreKept(length + |Raw(items[0])|, items[1..]);
      assert items == [items[0]] + items[1..];
    }
  }

  // ----- the buffer

  class FixedBuffer {
    const data: array<char>
    /** The position of the pointer `cur_` in `data`. */
    var cur: nat

    constructor (size: nat)
      requires 0 < size
      ensures Valid() && data.Length == size && Contents() == "" && fresh(data)
    {
      data := new char[size];
      cur := 0;
    }

    ghost predicate Valid()
      reads this
    {
      cur < data.Length
    }

    ghost function Contents(): string
      requires Valid()
      reads this, data
    {
      data[..cur]
    }

    function Avail(): nat
      requires Valid()
      reads this
    {
      data.Length - cur
    }

    method Append(buf: string, len: int)
      requires Valid() && 0 <= len <= |buf|
      modifies this`cur, data
      ensures Valid()
      ensures Contents() == old(Contents()) + if old(Avail()) > len then buf[..len] else ""
    {
      if Avail() > len {
        forall i | 0 <= i < len {
          data[cur + i] := buf[i];
        }
        cur := cur + len;
      }
    }

    /** Takes in what was stored at the current position. */
    method Add(len: nat)
      requires Valid() && len < Avail()
      modifies this`cur
      ensures Valid() && Contents() == old(Contents()) + old(data[cur..cur + len])
    {
      cur := cur + len;
    }
  }

  class LogStream {
    const buffer: FixedBuffer

    constructor ()
      ensures Valid() && buffer.Contents() == "" && fresh(buffer) && fresh(buffer.data)
    {
      buffer := new FixedBuffer(SMALL_BUFFER);
    }

    ghost predicate Valid()
      reads buffer
    {
      buffer.Valid() && buffer.data.Length == SMALL_BUFFER
    }

    method PutChar(v: char)
      requires Valid()
      modifies buffer`cur, buffer.data
      ensures Valid() && buffer.Contents() == Logged(old(buffer.Contents()), [Text([v])])
      ensures buffer.Contents() == old(buffer.Contents()) + if |old(buffer.Contents())| < 3999 then [v] else ""
    {
      buffer.Append([v], 1);
      assert [Text([v])][1..] == [];
    }

    method PutText(v: string)
      requires Valid() && Defined(Text(v))
      modifies buffer`cur, buffer.data
      ensures Valid() && buffer.Contents() == Logged(old(buffer.Contents()), [Text(v)])
    {
      buffer.Append(v, NarrowToInt(|v|));
      assert [Text(v)][1..] == [];
    }

    /** The number and its NUL are written in place, within the buffer. */
    method PutInt(v: Int32)
      requires Valid()
      modifies buffer`cur, buffer.data
      ensures Valid() && buffer.Contents() == Logged(old(buffer.Contents()), [Number(v)])
      ensures buffer.Contents() == old(buffer.Contents()) + if |old(buffer.Contents())| <= 3968 then Decimal(v) else ""
      ensures |old(buffer.Contents())| <= 3968 ==> buffer.data[buffer.cur] == '\0'
    {
      assert [Number(v)][1..] == [];
      DecimalIsShort(v);
      if buffer.Avail() >= MAX_NUMERIC_SIZE {
        ghost var before := buffer.data[..buffer.cur];
        var len := Convert(buffer.data, buffer.cur, v);
        assert buffer.data[..buffer.cur] == before;
        buffer.Add(len);
      }
    }

    method PutAll(items: seq<Item>)
      requires Valid()
      requires AllDefined(items)
      modifies buffer`cur, buffer.data
      ensures Valid() && buffer.Contents() == Logged(old(buffer.Contents()), items)
    {
      ghost var before := buffer.Contents();
      for i := 0 to |items|
        invariant Valid()
        invariant Logged(buffer.Contents(), items[i..]) == Logged(before, items)
      {
        assert items[i..][0] == items[i] && items[i..][1..] == items[i + 1..];
        ghost var now := buffer.Contents();
        match items[i] {
          case Text(s) => PutText(s);
          case Number(v) => PutInt(v);
        }
        assert [items[i]][1..] == [];
        assert Logged(buffer.Contents(), []) == buffer.Contents() == Logged(now, [items[i]]);
      }
      assert items[|items|..] == [];
    }
  }
}
