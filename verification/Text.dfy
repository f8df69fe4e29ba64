/**
 The string operations the path code relies on: cutting and splitting at a
 separator, decimal rendering and parsing with 64-bit wrap-around, and the
 lexicographic order object keys are visited in.
 */
module Text {

  lemma Assoc<T>(xs: seq<T>, ys: seq<T>, zs: seq<T>)
    ensures xs + ys + zs == xs + (ys + zs)
  {
  }

  // ---------------------------------------------------------------- cutting

  predicate Lacks(s: string, c: char) { c !in s }

  /** Index of the first `c` in `s`, or |s| when there is none. */
  function Find(s: string, c: char): (i: nat)
    ensures i <= |s|
    ensures c !in s[..i]
    ensures i < |s| ==> s[i] == c
    ensures i < |s| <==> c in s
  {
    if s == "" then 0
    else if s[0] == c then 0
    else
      var i := Find(s[1..], c);
      assert s[..i + 1] == [s[0]] + s[1..][..i];
      i + 1
  }

  lemma FindUnique(s: string, c: char, i: nat)
    requires i <= |s| && c !in s[..i] && (i < |s| ==> s[i] == c)
    ensures Find(s, c) == i
  {
    var j := Find(s, c);
    assert forall k | 0 <= k < i :: s[..i][k] != c;
    assert forall k | 0 <= k < j :: s[..j][k] != c;
  }

  /** Cutting at a separator that follows a separator-free prefix. */
  lemma CutAt(pre: string, c: char, post: string)
    requires c !in pre
    ensures var s := pre + [c] + post; Find(s, c) == |pre| && s[..|pre|] == pre && s[|pre| + 1..] == post
  {
    var s := pre + [c] + post;
    assert s[..|pre|] == pre;
    FindUnique(s, c, |pre|);
  }

  /** The pieces of `s` between separators; never empty. */
  function Split(s: string, c: char): (ps: seq<string>)
    ensures ps != []
    ensures forall p <- ps :: c !in p
    decreases |s|
  {
    var i := Find(s, c);
    if i == |s| then assert s[..i] == s; [s] else [s[..i]] + Split(s[i + 1..], c)
  }

  lemma SplitOne(p: string, c: char)
    requires c !in p
    ensures Split(p, c) == [p]
  {
    FindUnique(p, c, |p|);
  }

  lemma SplitCut(a: string, c: char, t: string)
    requires c !in a
    ensures Split(a + [c] + t, c) == [a] + Split(t, c)
  {
    CutAt(a, c, t);
  }

  /** Joining two texts with the separator joins their pieces. */
  lemma {:induction false} SplitConcat(s: string, c: char, t: string)
    ensures Split(s + [c] + t, c) == Split(s, c) + Split(t, c)
    decreases |s|
  {
    var i := Find(s, c);
    if i == |s| {
      assert s[..i] == s;
      SplitOne(s, c);
      SplitCut(s, c, t);
    } else {
      var a, b := s[..i], s[i + 1..];
      assert s == a + [c] + b;
      hide Find, Split;
      SplitConcat(b, c, t);
      SplitCut(a, c, b);
      SplitCut(a, c, b + [c] + t);
      Assoc(a + [c], b, [c]);
      Assoc(a + [c], b + [c], t);
      Assoc([a], Split(b, c), Split(t, c));
    }
  }

  /** Appending `c` and a separator-free piece appends that piece. */
  lemma SplitAppend(s: string, c: char, p: string)
    requires c !in p
    ensures Split(s + [c] + p, c) == Split(s, c) + [p]
  {
    SplitConcat(s, c, p);
    SplitOne(p, c);
  }

  // --------------------------------------------------------------- decimals

  const TWO63: int := 0x8000_0000_0000_0000
  const TWO64: int := 0x1_0000_0000_0000_0000

  /** Two's-complement 64-bit reading of an unbounded integer. */
  function Wrap64(x: int): (r: int)
    ensures -TWO63 <= r < TWO63
    ensures -TWO63 <= x < TWO63 ==> r == x
  {
    (x + TWO63) % TWO64 - TWO63
  }

  function Pow2(n: nat): (p: nat)
    ensures p >= 1
  {
    if n == 0 then 1 else 2 * Pow2(n - 1)
  }

  lemma {:induction false} Pow2Adds(a: nat, b: nat)
    ensures Pow2(a + b) == Pow2(a) * Pow2(b)
    decreases a
  {
    if a > 0 {
      Pow2Adds(a - 1, b);
      assert Pow2(a + b) == 2 * Pow2((a - 1) + b);
      assert 2 * (Pow2(a - 1) * Pow2(b)) == (2 * Pow2(a - 1)) * Pow2(b);
    }
  }

  lemma {:induction false} Pow2Monotone(a: nat, b: nat)
    requires a <= b
    ensures Pow2(a) <= Pow2(b)
    decreases b - a
  {
    if a < b { Pow2Monotone(a, b - 1); }
  }

  lemma Pow2Product(a: nat, x: int, b: nat, y: int)
    requires Pow2(a) == x && Pow2(b) == y
    ensures Pow2(a + b) == x * y
  {
    hide Pow2;
    Pow2Adds(a, b);
  }

  lemma Pow2Small()
    ensures Pow2(3) == 8 && Pow2(6) == 64 && Pow2(8) == 256
  {
    assert Pow2(6) == 64;
  }

  lemma Pow2Values()
    ensures Pow2(59) == 0x0800_0000_0000_0000 && Pow2(62) == TWO63 / 2 && Pow2(64) == TWO64
  {
    hide Pow2;
    Pow2Small();
    Pow2Product(8, 0x100, 8, 0x100);
    Pow2Product(16, 0x1_0000, 16, 0x1_0000);
    Pow2Product(32, 0x1_0000_0000, 32, 0x1_0000_0000);
    Pow2Product(8, 0x100, 6, 0x40);
    Pow2Product(16, 0x1_0000, 14, 0x4000);
    Pow2Product(32, 0x1_0000_0000, 30, 0x4000_0000);
    Pow2Product(8, 0x100, 3, 0x8);
    Pow2Product(16, 0x1_0000, 11, 0x800);
    Pow2Product(32, 0x1_0000_0000, 27, 0x800_0000);
  }

  predicate IsDigit(c: char) { '0' <= c <= '9' }

  predicate AllDigits(s: string) { s != "" && forall i | 0 <= i < |s| :: IsDigit(s[i]) }

  function DigitChar(d: nat): (c: char)
    requires d < 10
    ensures IsDigit(c) && DigitVal(c) == d
  {
    '0' + d as char
  }

  function DigitVal(c: char): (d: nat)
    requires IsDigit(c)
    ensures d < 10
  {
    (c as int) - ('0' as int)
  }

  /** Decimal text of an integer. */
  function Itoa(n: int): (s: string)
    ensures s != ""
    ensures n >= 0 <==> AllDigits(s)
    decreases if n < 0 then 1 else 0, n
  {
    if n < 0 then
      var s := "-" + Itoa(-n);
      assert s[0] == '-';
      s
    else if n < 10 then [DigitChar(n)]
    else Itoa(n / 10) + [DigitChar(n % 10)]
  }

  /** The accumulator after reading all of `s`, wrapping at every step. */
  function ReadDigits(s: string): (n: int)
    requires forall i | 0 <= i < |s| :: IsDigit(s[i])
    ensures -TWO63 <= n < TWO63
  {
    if s == "" then 0
    else Wrap64(ReadDigits(s[..|s| - 1]) * 10 + DigitVal(s[|s| - 1]))
  }

  /** Different integers have different decimal texts. */
  lemma ItoaInjective(a: int, b: int)
    requires Itoa(a) == Itoa(b)
    ensures a == b
  {
    if a < 0 {
      assert Itoa(a)[1..] == Itoa(-a) && Itoa(b)[1..] == Itoa(-b);
      NatItoaInjective(-a, -b);
    } else {
      NatItoaInjective(a, b);
    }
  }

  lemma {:induction false} NatItoaInjective(a: nat, b: nat)
    requires Itoa(a) == Itoa(b)
    ensures a == b
  {
    var s, t := Itoa(a), Itoa(b);
    assert DigitVal(s[|s| - 1]) == a % 10 && DigitVal(t[|t| - 1]) == b % 10;
    assert a >= 10 <==> |s| >= 2;
    assert b >= 10 <==> |t| >= 2;
    if a >= 10 {
      assert s[..|s| - 1] == Itoa(a / 10) && t[..|t| - 1] == Itoa(b / 10);
      NatItoaInjective(a / 10, b / 10);
    }
  }

  /** A decimal text below 2^63 reads back as its number. */
  lemma {:induction false} ReadItoa(n: int)
    requires 0 <= n < TWO63
    ensures ReadDigits(Itoa(n)) == n
    decreases n
  {
    if n < 10 {
      assert Itoa(n)[..0] == "";
    } else {
      ReadItoa(n / 10);
      assert Itoa(n)[..|Itoa(n)| - 1] == Itoa(n / 10);
    }
  }

  lemma {:induction false} ItoaNoLeadingZero(n: int)
    requires 0 <= n
    ensures |Itoa(n)| > 1 ==> Itoa(n)[0] != '0'
    ensures n > 0 ==> Itoa(n)[0] != '0'
    decreases n
  {
    if n >= 10 {
      ItoaNoLeadingZero(n / 10);
      assert Itoa(n)[0] == Itoa(n / 10)[0];
    } else if n > 0 {
      assert DigitVal(Itoa(n)[0]) == n;
    }
  }

  // ------------------------------------------------------------------ order

  /** Strict lexicographic order by character. */
  predicate Less(a: string, b: string) {
    b != "" && (a == "" || a[0] < b[0] || (a[0] == b[0] && Less(a[1..], b[1..])))
  }

  /** The strings agree up to position i, where `a` ends or has the smaller character. */
  predicate SmallerAt(a: string, b: string, i: nat) {
    i <= |a| && i < |b| && a[..i] == b[..i] && (i == |a| || a[i] < b[i])
  }

  lemma SmallerStarts(a: string, b: string, i: nat)
    requires SmallerAt(a, b, i)
    ensures i > 0 ==> a[0] == b[0]
  {
    if i > 0 { assert a[..i][0] == a[0] && b[..i][0] == b[0]; }
  }

  /** The order is decided at the first position where the strings differ. */
  lemma {:induction false} LessExactly(a: string, b: string)
    ensures Less(a, b) <==> exists i: nat :: SmallerAt(a, b, i)
  {
    if a == "" || b == "" || a[0] != b[0] {
      if b != "" && (a == "" || a[0] < b[0]) { assert SmallerAt(a, b, 0); }
      forall i: nat | SmallerAt(a, b, i) ensures i == 0 { SmallerStarts(a, b, i); }
    } else {
      LessExactly(a[1..], b[1..]);
      if j: nat :| SmallerAt(a[1..], b[1..], j) {
        assert a[..j + 1] == [a[0]] + a[1..][..j] && b[..j + 1] == [b[0]] + b[1..][..j];
        assert SmallerAt(a, b, j + 1);
      }
      if i: nat :| SmallerAt(a, b, i) {
        assert i > 0 && a[1..][..i - 1] == a[..i][1..] && b[1..][..i - 1] == b[..i][1..];
        assert SmallerAt(a[1..], b[1..], i - 1);
      }
    }
  }

  lemma {:induction false} LessTotal(a: string, b: string)
    ensures a == b || Less(a, b) || Less(b, a)
    ensures !(Less(a, b) && Less(b, a))
    ensures a == b ==> !Less(a, b)
  {
    if a != "" && b != "" && a[0] == b[0] {
      LessTotal(a[1..], b[1..]);
      assert a == [a[0]] + a[1..] && b == [b[0]] + b[1..];
    }
  }

  lemma {:induction false} LessTransitive(a: string, b: string, c: string)
    requires Less(a, b) && Less(b, c)
    ensures Less(a, c)
  {
    if a != "" && a[0] == b[0] == c[0] {
      LessTransitive(a[1..], b[1..], c[1..]);
    }
  }

  ghost predicate Ascending(ks: seq<string>) {
    forall i, j | 0 <= i < j < |ks| :: Less(ks[i], ks[j])
  }

  predicate IsLeast(s: set<string>, k: string) {
    k in s && forall x | x in s && x != k :: Less(k, x)
  }

  lemma {:induction false} LeastExists(s: set<string>) returns (k: string)
    requires s != {}
    ensures IsLeast(s, k)
    decreases |s|
  {
    k :| k in s;
    var rest := s - {k};
    if rest != {} {
      var r := LeastExists(rest);
      LessTotal(k, r);
      if Less(r, k) {
        k := r;
      } else {
        forall x | x in s && x != k ensures Less(k, x) {
          if x != r { LessTransitive(k, r, x); }
        }
      }
    }
  }

  lemma LeastUnique(s: set<string>)
    ensures forall k, l | IsLeast(s, k) && IsLeast(s, l) :: k == l
  {
    forall k, l | IsLeast(s, k) && IsLeast(s, l) ensures k == l {
      LessTotal(k, l);
    }
  }

  function Least(s: set<string>): (k: string)
    requires s != {}
    ensures IsLeast(s, k)
  {
    assert exists k :: IsLeast(s, k) by { var w := LeastExists(s); }
    LeastUnique(s);
    var k :| k in s && IsLeast(s, k);
    k
  }

  /** A finite set of keys in ascending order, each key once. */
  function Sorted(s: set<string>): (ks: seq<string>)
    ensures forall x :: x in ks <==> x in s
    ensures Ascending(ks)
    decreases |s|
  {
    if s == {} then [] else
      var k := Least(s);
      var rest := Sorted(s - {k});
      assert forall j | 0 <= j < |rest| :: rest[j] in rest;
      [k] + rest
  }

  /** An ascending list is determined by its set of elements. */
  lemma {:induction false} AscendingUnique(ks: seq<string>, ls: seq<string>)
    requires Ascending(ks) && Ascending(ls)
    requires forall x :: x in ks <==> x in ls
    ensures ks == ls
  {
    if ks == [] {
      assert forall i | 0 <= i < |ls| :: ls[i] in ls;
    } else {
      assert ks[0] in ls;
      assert ls[0] in ks;
      LessTotal(ks[0], ls[0]);
      AscendingTail(ks);
      AscendingTail(ls);
      AscendingUnique(ks[1..], ls[1..]);
    }
  }

  lemma AscendingTail(ks: seq<string>)
    requires Ascending(ks) && ks != []
    ensures forall x :: x in ks[1..] <==> x in ks && x != ks[0]
    ensures Ascending(ks[1..])
  {
    forall x | x in ks[1..] ensures x in ks && x != ks[0] {
      var j :| 1 <= j < |ks| && ks[j] == x;
      LessTotal(ks[0], ks[j]);
    }
  }
}
