/** Decimal notation: what it is, that it determines the number, and how `convert` prints it. */
module Decimals {

  type Int32 = n: int | -0x8000_0000 <= n < 0x8000_0000

  // ----- the notation

  function DigitChar(d: nat): char
    requires d < 10
  {
    '0' + d as char
  }

  function Digits(n: nat): (s: string)
    ensures s != []
  {
    if n < 10 then [DigitChar(n)] else Digits(n / 10) + [DigitChar(n % 10)]
  }

  function Decimal(v: int): string {
    if v < 0 then "-" + Digits(-v) else Digits(v)
  }

  predicate AllDigits(s: string) {
    forall i | 0 <= i < |s| :: '0' <= s[i] <= '9'
  }

  function ParseDigits(s: string): nat
    requires AllDigits(s)
  {
    if s == [] then 0
    else
      10 * ParseDigits(s[..|s| - 1]) + (s[|s| - 1] as nat - '0' as nat)
  }

  /** Digits without a leading zero, after a minus sign unless they are "0". */
  predicate Canonical(s: string) {
    var digits := if s != [] && s[0] == '-' then s[1..] else s;
    && digits != [] && AllDigits(digits)
    && (digits[0] == '0' ==> s == "0")
  }

  function Parse(s: string): int
    requires Canonical(s)
  {
    if s[0] == '-' then -(ParseDigits(s[1..]) as int) else ParseDigits(s)
  }

  lemma {:induction false} DigitsParse(n: nat)
    ensures AllDigits(Digits(n)) && ParseDigits(Digits(n)) == n
    ensures Digits(n)[0] == '0' <==> n == 0
    decreases n
  {
    if n < 10 {
    } else {
      DigitsParse(n / 10);
      var s := Digits(n);
      assert s[..|s| - 1] == Digits(n / 10);
    }
  }

  /** Parsing what is printed gives the number back; so no two numbers print alike. */
  lemma PrintThenParse(v: int)
    ensures Canonical(Decimal(v)) && Parse(Decimal(v)) == v
  {
    DigitsParse(if v < 0 then -v else v);
    if v < 0 {
      assert Decimal(v)[1..] == Digits(-v);
    }
  }

  lemma DifferentNumbersPrintDifferently(v: int, w: int)
    requires v != w
    ensures Decimal(v) != Decimal(w)
  {
    PrintThenParse(v);
    PrintThenParse(w);
  }

  lemma {:induction false} ParseDigitsPrint(s: string)
    requires AllDigits(s) && s != [] && (s[0] == '0' ==> |s| == 1)
    ensures Digits(ParseDigits(s)) == s
    ensures ParseDigits(s) == 0 <==> s[0] == '0'
    decreases |s|
  {
    var init, last := s[..|s| - 1], s[|s| - 1] as nat - '0' as nat;
    assert s == init + [DigitChar(last)];
    if init == [] {
    } else {
      ParseDigitsPrint(init);
      assert ParseDigits(s) == 10 * ParseDigits(init) + last;
      assert ParseDigits(s) / 10 == ParseDigits(init) && ParseDigits(s) % 10 == last;
    }
  }

  /** Every canonical string is printed by the number it parses to. */
  lemma ParseThenPrint(s: string)
    requires Canonical(s)
    ensures Decimal(Parse(s)) == s
  {
    if s[0] == '-' {
      ParseDigitsPrint(s[1..]);
      assert s == "-" + s[1..];
    } else {
      ParseDigitsPrint(s);
    }
  }

  function Pow10(k: nat): nat {
    if k == 0 then 1 else 10 * Pow10(k - 1)
  }

  lemma {:induction false} DigitCount(n: nat, k: nat)
    requires 0 < k && n < Pow10(k)
    ensures |Digits(n)| <= k
    decreases k
  {
    if n < 10 {
    } else {
      DigitCount(n / 10, k - 1);
    }
  }

  /** The longest text of a 32-bit number is that of the minimum. */
  lemma DecimalIsShort(v: Int32)
    ensures 1 <= |Decimal(v)| <= 11
  {
    assert Pow10(10) == 10_000_000_000 by {
      assert Pow10(5) == 100_000;
      assert Pow10(7) == 10_000_000;
      assert Pow10(9) == 1_000_000_000;
    }
    DigitCount(Abs(v), 10);
  }

  // ----- the C++ operators and the digit table

  /** Division and remainder of C++: the quotient is truncated toward zero. */
  function DivTruncated(a: int, b: nat): int
    requires b > 0
  {
    if a >= 0 then a / b else -(-a / b)
  }

  function ModTruncated(a: int, b: nat): int
    requires b > 0
  {
    a - b * DivTruncated(a, b)
  }

  /** Digits in both directions from the zero in the middle. */
  const DIGITS := "9876543210123456789"
  const ZERO := 9

  function Abs(n: int): nat {
    if n < 0 then -n else n
  }

  /** The mirrored table turns a remainder of either sign into the last digit. */
  lemma LastDigit(i: int)
    ensures -9 <= ModTruncated(i, 10) <= 9
    ensures DIGITS[ZERO + ModTruncated(i, 10)] == DigitChar(Abs(i) % 10)
    ensures Abs(DivTruncated(i, 10)) == Abs(i) / 10
  {
  }

  // ----- printing in place

  function Reversed(s: string): (r: string)
    ensures |r| == |s|
  {
    if s == [] then [] else Reversed(s[1..]) + [s[0]]
  }

  lemma {:induction false} ReversedAppend(s: string, c: char)
    ensures Reversed(s + [c]) == [c] + Reversed(s)
    decreases |s|
  {
    if s == [] {
      assert s + [c] == [c];
    } else {
      assert (s + [c])[1..] == s[1..] + [c];
      ReversedAppend(s[1..], c);
    }
  }

  lemma {:induction false} ReversedAt(s: string, k: nat)
    requires k < |s|
    ensures Reversed(s)[k] == s[|s| - 1 - k]
    decreases |s|
  {
    if k == |s| - 1 {
    } else {
      ReversedAt(s[1..], k);
    }
  }

  /** The loop of std::reverse: the ends of the range change places, from the outside in. */
  method SwapInward(buf: array<char>, first: nat, last: nat)
    requires first <= last <= buf.Length
    modifies buf
    ensures forall k | first <= k < last :: buf[k] == old(buf[..])[first + last - 1 - k]
    ensures forall k | 0 <= k < first || last <= k < buf.Length :: buf[k] == old(buf[..])[k]
  {
    ghost var was := buf[..];
    var lo, hi := first, last;
    while lo < hi
      invariant first <= lo <= last && hi == last - (lo - first) && lo <= hi + 1
      invariant forall k | first <= k < lo :: buf[k] == was[first + last - 1 - k]
      invariant forall k | hi <= k < last :: buf[k] == was[first + last - 1 - k]
      invariant forall k | 0 <= k < first || lo <= k < hi || last <= k < buf.Length :: buf[k] == was[k]
      decreases hi - lo
    {
      hi := hi - 1;
      if lo < hi {
        buf[lo], buf[hi] := buf[hi], buf[lo];
      }
      lo := lo + 1;
    }
  }

  method Reverse(buf: array<char>, first: nat, last: nat)
    requires first <= last <= buf.Length
    modifies buf
    ensures buf[first..last] == Reversed(old(buf[first..last]))
    ensures buf[..first] == old(buf[..first]) && buf[last..] == old(buf[last..])
  {
    ghost var was := buf[..];
    SwapInward(buf, first, last);
    forall k | 0 <= k < last - first ensures buf[first..last][k] == Reversed(was[first..last])[k] {
      ReversedAt(was[first..last], k);
    }
    assert buf[first..last] == Reversed(was[first..last]);
  }

  /** One turn of the loop: the last digit moves from the number to the text. */
  lemma OneDigit(i: int, s: string)
    requires -9 <= ModTruncated(i, 10) <= 9
    ensures var next, c := DivTruncated(i, 10), DIGITS[ZERO + ModTruncated(i, 10)];
      Digits(Abs(i)) + Reversed(s) == (if next != 0 then Digits(Abs(next)) else []) + Reversed(s + [c])
  {
    LastDigit(i);
    var next, c := DivTruncated(i, 10), DIGITS[ZERO + ModTruncated(i, 10)];
    ReversedAppend(s, c);
    if next != 0 {
      assert Digits(Abs(i)) == Digits(Abs(next)) + [c];
    } else {
      assert Digits(Abs(i)) == [c];
    }
  }

  /** The loop of `convert`: the digits, last one first. */
  method StoreDigits(buf: array<char>, start: nat, value: Int32) returns (p: nat)
    requires start + |Digits(Abs(value))| <= buf.Length
    modifies buf
    ensures start <= p <= buf.Length && Reversed(buf[start..p]) == Digits(Abs(value))
    ensures forall k | 0 <= k < start || p <= k < buf.Length :: buf[k] == old(buf[k])
  {
    hide Digits, Reversed, DigitChar;
    var i: Int32 := value;
    p := start;
    var more := true;
    while more
      invariant start <= p <= buf.Length
      invariant (if more then Digits(Abs(i)) else []) + Reversed(buf[start..p]) == Digits(Abs(value))
      invariant forall k | 0 <= k < start || p <= k < buf.Length :: buf[k] == old(buf[k])
      decreases more, Abs(i)
    {
      LastDigit(i);
      OneDigit(i, buf[start..p]);
      var lsd := ModTruncated(i, 10);
      ghost var before := buf[start..p];
      i := DivTruncated(i, 10);
      buf[p] := DIGITS[ZERO + lsd];
      p := p + 1;
      assert buf[start..p] == before + [DIGITS[ZERO + lsd]];
      more := i != 0;
    }
  }

  /** Prints `value` at `start`, with a NUL after it. Room for both is all it needs. */
  method Convert(buf: array<char>, start: nat, value: Int32) returns (len: nat)
    requires start + |Decimal(value)| < buf.Length
    modifies buf
    ensures len == |Decimal(value)|
    ensures buf[start..start + len] == Decimal(value) && buf[start + len] == '\0'
    ensures forall k | 0 <= k < start || start + len < k < buf.Length :: buf[k] == old(buf[k])
  {
    var p := StoreDigits(buf, start, value);
    hide Digits, Reversed;
    len := FinishText(buf, start, p, value < 0);
  }

  /** The sign, the NUL, and the text turned round. */
  method FinishText(buf: array<char>, start: nat, end: nat, negative: bool) returns (len: nat)
    requires start <= end && end + (if negative then 1 else 0) < buf.Length
    modifies buf
    ensures len == end - start + if negative then 1 else 0
    ensures buf[start..start + len] == (if negative then "-" else "") + Reversed(old(buf[start..end]))
    ensures buf[start + len] == '\0'
    ensures forall k | 0 <= k < start || start + len < k < buf.Length :: buf[k] == old(buf[k])
  {
    hide Reversed;
    ghost var digits := buf[start..end];
    var p := end;
    if negative {
      buf[p] := '-';
      p := p + 1;
      ReversedAppend(digits, '-');
      assert buf[start..p] == digits + ['-'];
    } else {
      assert buf[start..p] == digits;
    }
    buf[p] := '\0';
    assert buf[start..p] == if negative then digits + ['-'] else digits;
    Reverse(buf, start, p);
    len := p - start;
  }
}
