/**
 ULID encoding (internal/domain/id.go): 128 bits in two 64-bit words, written
 as 26 Crockford base-32 characters. The words are numbers below 2^64: a right
 shift by five divides by 32, a mask of five bits is the remainder, and OR works
 bit by bit.
 */
module Ulid {

  import opened Text

  const ALPHABET: string := "0123456789ABCDEFGHJKMNPQRSTVWXYZ"
  const LENGTH := 26
  const TWO59: int := 0x0800_0000_0000_0000
  const TWO80: int := 0x1_0000_0000_0000_0000_0000
  const TWO48: int := 0x1_0000_0000_0000

  predicate Word(x: int) { 0 <= x < TWO64 }

  function Value(hi: int, lo: int): int { hi * TWO64 + lo }

  /** The n low base-32 digits of v, most significant first. */
  function Digits(v: nat, n: nat): (s: string)
    ensures |s| == n
  {
    if n == 0 then "" else Digits(v / 32, n - 1) + [ALPHABET[v % 32]]
  }

  /** Position of a character in the alphabet, or 32. */
  function DigitOf(c: char): (d: nat)
    ensures d <= 32 && (d < 32 ==> ALPHABET[d] == c)
    ensures forall i | 0 <= i < d :: ALPHABET[i] != c
  {
    PositionFrom(c, 0)
  }

  function PositionFrom(c: char, i: nat): (d: nat)
    requires i <= 32
    ensures i <= d <= 32 && (d < 32 ==> ALPHABET[d] == c)
    ensures forall j | i <= j < d :: ALPHABET[j] != c
    decreases 32 - i
  {
    if i == 32 || ALPHABET[i] == c then i else PositionFrom(c, i + 1)
  }

  function Decode(s: string): nat {
    if s == "" then 0 else Decode(s[..|s| - 1]) * 32 + DigitOf(s[|s| - 1])
  }

  function Pow32(n: nat): (p: nat)
    ensures p >= 1
  {
    if n == 0 then 1 else 32 * Pow32(n - 1)
  }

  // ------------------------------------------------------------------------ bits

  /** Bitwise OR of two naturals. */
  function BitOr(x: nat, y: nat): nat
    decreases x + y
  {
    if x == 0 && y == 0 then 0
    else (if x % 2 == 1 || y % 2 == 1 then 1 else 0) + 2 * BitOr(x / 2, y / 2)
  }

  lemma {:induction false} BitOrZero(y: nat)
    ensures BitOr(0, y) == y
  {
    if y > 0 { BitOrZero(y / 2); }
  }

  /** Where bits do not overlap, OR is a sum. */
  lemma {:induction false} BitOrIsSum(x: nat, m: nat, n: nat)
    requires x < Pow2(n)
    ensures BitOr(x, m * Pow2(n)) == x + m * Pow2(n)
    decreases n
  {
    if n == 0 {
      BitOrZero(m);
      assert m * 1 == m;
    } else {
      var h := m * Pow2(n - 1);
      assert m * Pow2(n) == 2 * h by { assert m * (2 * Pow2(n - 1)) == 2 * (m * Pow2(n - 1)); }
      BitOrIsSum(x / 2, m, n - 1);
      HalvesOr(x, h);
    }
  }

  lemma HalvesOr(x: nat, h: nat)
    requires BitOr(x / 2, h) == x / 2 + h
    ensures BitOr(x, 2 * h) == x + 2 * h
  {
    assert (2 * h) / 2 == h && (2 * h) % 2 == 0;
    assert x == 2 * (x / 2) + x % 2;
  }

  /** The carried bits and the shifted word do not overlap, and nothing is shifted out. */
  lemma CarryIsSum(hi: int, lo: int)
    requires Word(hi) && Word(lo)
    ensures Word((hi % 32) * TWO59)
    ensures BitOr(lo / 32, (hi % 32) * TWO59) == lo / 32 + (hi % 32) * TWO59
  {
    Pow2Values();
    hide Pow2;
    BitOrIsSum(lo / 32, hi % 32, 59);
  }

  // -------------------------------------------------------------------- encoding

  /** One step of the loop divides the 128-bit value by 32. */
  lemma ShiftDivides(hi: int, lo: int)
    requires Word(hi) && Word(lo)
    ensures Word(lo / 32 + (hi % 32) * TWO59) && Word(hi / 32)
    ensures Value(hi / 32, lo / 32 + (hi % 32) * TWO59) == Value(hi, lo) / 32
    ensures lo % 32 == Value(hi, lo) % 32
  {
    assert TWO64 == 32 * TWO59;
    assert hi == 32 * (hi / 32) + hi % 32;
    assert lo == 32 * (lo / 32) + lo % 32;
    var q := (hi / 32) * TWO64 + (hi % 32) * TWO59 + lo / 32;
    assert Value(hi, lo) == 32 * q + lo % 32;
  }

  method Encode(hi0: int, lo0: int) returns (out: string)
    requires Word(hi0) && Word(lo0)
    ensures out == Digits(Value(hi0, lo0), LENGTH)
  {
    var hi, lo := hi0, lo0;
    var buf := new char[LENGTH];
    var i := LENGTH;
    ghost var want := Digits(Value(hi0, lo0), LENGTH);
    while i > 0
      invariant 0 <= i <= LENGTH && Word(hi) && Word(lo)
      invariant Digits(Value(hi, lo), i) == want[..i]
      invariant forall j | i <= j < LENGTH :: buf[j] == want[j]
    {
      i := i - 1;
      ShiftDivides(hi, lo);
      CarryIsSum(hi, lo);
      NextDigit(hi, lo, want, i);
      hide Digits, Value, BitOr, Word;
      buf[i] := ALPHABET[lo % 32];
      lo := BitOr(lo / 32, (hi % 32) * TWO59);
      hi := hi / 32;
    }
    out := buf[..];
  }

  /** The low five bits are the next character; the rest of the text is that of the
      value divided by 32. */
  lemma NextDigit(hi: int, lo: int, want: string, i: nat)
    requires Word(hi) && Word(lo) && i < |want| && Digits(Value(hi, lo), i + 1) == want[..i + 1]
    ensures want[i] == ALPHABET[lo % 32] && Digits(Value(hi, lo) / 32, i) == want[..i]
  {
    ShiftDivides(hi, lo);
    var d := Digits(Value(hi, lo), i + 1);
    assert d[..i] == Digits(Value(hi, lo) / 32, i) && d[i] == ALPHABET[Value(hi, lo) % 32];
    assert want[..i + 1][i] == want[i] && want[..i + 1][..i] == want[..i];
  }

  // -------------------------------------------------------------------- decoding

  lemma AlphabetAscends(i: nat, j: nat)
    requires i < j < 32
    ensures ALPHABET[i] < ALPHABET[j]
  {
  }

  lemma DigitOfAlphabet(d: nat)
    requires d < 32
    ensures DigitOf(ALPHABET[d]) == d
  {
    var e := DigitOf(ALPHABET[d]);
    if e < d { AlphabetAscends(e, d); }
  }

  /** Decoding the digits gives the value back. */
  lemma {:induction false} DecodeDigits(v: nat, n: nat)
    requires v < Pow32(n)
    ensures Decode(Digits(v, n)) == v
  {
    if n > 0 {
      var s := Digits(v, n);
      assert s[..|s| - 1] == Digits(v / 32, n - 1);
      DecodeDigits(v / 32, n - 1);
      DigitOfAlphabet(v % 32);
      assert Decode(s) == v / 32 * 32 + v % 32;
      hide *;
    }
  }

  // ----------------------------------------------------------------------- order

  lemma {:induction false} LessSnoc(s: string, t: string, c: char, d: char)
    requires |s| == |t|
    ensures Less(s + [c], t + [d]) <==> Less(s, t) || (s == t && c < d)
  {
    if s == "" {
      assert t == "";
      assert [c][1..] == "" && [d][1..] == "";
    } else {
      assert (s + [c])[1..] == s[1..] + [c] && (t + [d])[1..] == t[1..] + [d];
      LessSnoc(s[1..], t[1..], c, d);
      assert s == [s[0]] + s[1..] && t == [t[0]] + t[1..];
    }
  }

  /** Text order is numeric order. */
  lemma {:induction false} DigitsOrder(v: nat, w: nat, n: nat)
    requires v < Pow32(n) && w < Pow32(n)
    ensures Less(Digits(v, n), Digits(w, n)) <==> v < w
  {
    if n == 0 {
    } else {
      var a, b := v / 32, w / 32;
      DigitsOrder(a, b, n - 1);
      LessSnoc(Digits(a, n - 1), Digits(b, n - 1), ALPHABET[v % 32], ALPHABET[w % 32]);
      if v % 32 < w % 32 { AlphabetAscends(v % 32, w % 32); }
      if w % 32 < v % 32 { AlphabetAscends(w % 32, v % 32); }
      if Digits(a, n - 1) == Digits(b, n - 1) {
        DecodeDigits(a, n - 1);
        DecodeDigits(b, n - 1);
      }
    }
  }

  lemma {:induction false} Pow32Adds(a: nat, b: nat)
    ensures Pow32(a + b) == Pow32(a) * Pow32(b)
    decreases a
  {
    if a > 0 {
      Pow32Adds(a - 1, b);
      assert Pow32(a + b) == 32 * Pow32((a - 1) + b);
      assert 32 * (Pow32(a - 1) * Pow32(b)) == (32 * Pow32(a - 1)) * Pow32(b);
    }
  }

  lemma Pow32Product(a: nat, x: int, b: nat, y: int)
    requires Pow32(a) == x && Pow32(b) == y
    ensures Pow32(a + b) == x * y
  {
    hide Pow32;
    Pow32Adds(a, b);
  }

  lemma Pow32Small()
    ensures Pow32(2) == 0x400 && Pow32(4) == 0x10_0000
  {
    assert Pow32(2) == 0x400;
  }

  /** 26 characters hold 130 bits, so every 128-bit value fits. */
  lemma ValueFits(hi: int, lo: int)
    requires Word(hi) && Word(lo)
    ensures 0 <= Value(hi, lo) < Pow32(LENGTH)
  {
    hide Pow32;
    Pow32Small();
    Pow32Product(4, 0x10_0000, 4, 0x10_0000);
    Pow32Product(8, 0x100_0000_0000, 8, 0x100_0000_0000);
    Pow32Product(16, 0x1_0000_0000_0000_0000_0000, 8, 0x100_0000_0000);
    Pow32Product(24, 0x100_0000_0000_0000_0000_0000_0000_0000, 2, 0x400);
  }

  /** Encoded ids decode to their value and sort as their values do. */
  lemma EncodingFaithful(h: int, l: int, h': int, l': int)
    requires Word(h) && Word(l) && Word(h') && Word(l')
    ensures Decode(Digits(Value(h, l), LENGTH)) == Value(h, l)
    ensures Less(Digits(Value(h, l), LENGTH), Digits(Value(h', l'), LENGTH)) <==> Value(h, l) < Value(h', l')
  {
    ValueFits(h, l);
    ValueFits(h', l');
    DecodeDigits(Value(h, l), LENGTH);
    DigitsOrder(Value(h, l), Value(h', l'), LENGTH);
  }

  /** A millisecond and 80 random bits. */
  predicate Stamped(v: int, ms: int, random: int) {
    0 <= ms < TWO48 && 0 <= random < TWO80 && v == ms * TWO80 + random
  }

  /** Ids of a later millisecond sort later, whatever their random part. */
  lemma LaterSortsLater(h: int, l: int, ms: int, r: int, h': int, l': int, ms': int, r': int)
    requires Word(h) && Word(l) && Word(h') && Word(l')
    requires Stamped(Value(h, l), ms, r) && Stamped(Value(h', l'), ms', r') && ms < ms'
    ensures Less(Digits(Value(h, l), LENGTH), Digits(Value(h', l'), LENGTH))
  {
    assert (ms + 1) * TWO80 <= ms' * TWO80;
    EncodingFaithful(h, l, h', l');
  }
}
