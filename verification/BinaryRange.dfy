/** Bit strings in bindings/python/rad_util.py: `int2bin`, which goes through hexadecimal digits,
    `bin2int`, and `binary_range`, a ripple-carry counter. */
module BinaryRange {
  function Power2(n: nat): (p: nat)
    ensures p > 0
  {
    if n == 0 then 1 else 2 * Power2(n - 1)
  }

  function Bit(b: nat): char {
    if b % 2 == 1 then '1' else '0'
  }

  /** The `n` low bits of `i`, the most significant first. */
  function Bits(i: nat, n: nat): (s: string)
    ensures |s| == n
  {
    if n == 0 then "" else Bits(i / 2, n - 1) + [Bit(i)]
  }

  ghost predicate IsBits(s: string) {
    forall j :: 0 <= j < |s| ==> s[j] == '0' || s[j] == '1'
  }

  /** `bin2int` of a string of zeros and ones. */
  function BinToInt(s: string): nat {
    if s == "" then 0 else 2 * BinToInt(s[..|s| - 1]) + if s[|s| - 1] == '1' then 1 else 0
  }

  /** The digits that `hex` writes, each as four bits. */
  function HexBits(i: nat): string {
    if i < 16 then Bits(i, 4) else HexBits(i / 16) + Bits(i % 16, 4)
  }

  /** `s[:-n]` and `s[-n:]`, where Python reads `-0` as `0`. */
  function AllButLast(s: string, n: nat): string {
    if n == 0 || n >= |s| then "" else s[..|s| - n]
  }

  function LastOf(s: string, n: nat): string {
    if n == 0 || n >= |s| then s else s[|s| - n..]
  }

  function Zeros(n: nat): (s: string)
    ensures |s| == n && forall j :: 0 <= j < n ==> s[j] == '0'
  {
    seq(n, _ => '0')
  }

  datatype Written = Bin(bits: string) | ValueError | KeyError

  /** `int2bin`.  Behind the two characters cut off, `hex` of a negative number still has its `x`, which is
      no digit. */
  function IntToBin(i: int, n: nat): Written {
    if i < 0 then KeyError
    else
      var bits := HexBits(i);
      if '1' in AllButLast(bits, n) then ValueError
      else
        var low := LastOf(bits, n);
        Bin((if |low| < n then Zeros(n - |low|) else "") + low)
  }

  /* ----- bit strings ----- */

  lemma {:induction false} BitsRead(i: nat, n: nat)
    ensures IsBits(Bits(i, n))
    ensures BinToInt(Bits(i, n)) == i % Power2(n)
  {
    if n > 0 {
      BitsRead(i / 2, n - 1);
      assert Bits(i, n)[..n - 1] == Bits(i / 2, n - 1);
      HalfRemainder(i, Power2(n - 1));
    }
  }

  lemma {:induction false} HalfRemainder(i: nat, p: nat)
    requires p > 0
    ensures i % (2 * p) == 2 * ((i / 2) % p) + i % 2
  {
    var q, r := (i / 2) / p, (i / 2) % p;
    assert i / 2 == p * q + r;
    assert i == 2 * p * q + (2 * r + i % 2);
    Remainder(2 * p, q, 2 * r + i % 2);
  }

  lemma {:induction false} Remainder(p: nat, q: nat, r: nat)
    requires r < p
    ensures (p * q + r) % p == r && (p * q + r) / p == q
  {
    var i := p * q + r;
    SameParts(p, i / p, i % p, q, r);
  }

  lemma {:induction false} SameParts(p: nat, d: nat, m: nat, q: nat, r: nat)
    requires p * d + m == p * q + r && m < p && r < p
    ensures d == q && m == r
  {
    MulApart(p, d - q);
    assert p * (d - q) == r - m;
  }

  lemma {:induction false} MulApart(p: nat, x: int)
    ensures (x >= 1 ==> p * x >= p) && (x <= -1 ==> p * x + p <= 0)
  {
  }

  /** The value of a string is spread over its parts. */
  lemma {:induction false} BinToIntConcat(a: string, b: string)
    ensures BinToInt(a + b) == BinToInt(a) * Power2(|b|) + BinToInt(b)
  {
    if b == "" {
      assert a + b == a;
    } else {
      hide IsBits;
      assert (a + b)[..|a + b| - 1] == a + b[..|b| - 1] && (a + b)[|a + b| - 1] == b[|b| - 1];
      BinToIntConcat(a, b[..|b| - 1]);
      Doubled(BinToInt(a), Power2(|b| - 1));
    }
  }

  lemma {:induction false} Doubled(x: nat, p: nat)
    ensures 2 * (x * p) == x * (2 * p)
  {
  }

  lemma {:induction false} BinToIntBound(s: string)
    ensures BinToInt(s) < Power2(|s|)
  {
    if s != "" {
      BinToIntBound(s[..|s| - 1]);
    }
  }

  lemma {:induction false} NoOnes(s: string)
    requires IsBits(s)
    ensures '1' in s <==> BinToInt(s) > 0
  {
    if s != "" {
      NoOnes(s[..|s| - 1]);
      assert s == s[..|s| - 1] + [s[|s| - 1]];
    }
  }

  /** A string of bits is determined by its length and its value. */
  lemma {:induction false} BitsUnique(s: string)
    requires IsBits(s)
    ensures s == Bits(BinToInt(s), |s|)
  {
    if s != "" {
      BitsUnique(s[..|s| - 1]);
      assert BinToInt(s) / 2 == BinToInt(s[..|s| - 1]);
      assert s == s[..|s| - 1] + [s[|s| - 1]];
    }
  }

  lemma {:induction false} Sixteen()
    ensures Power2(4) == 16
  {
    assert Power2(2) == 4;
  }

  lemma {:induction false} HexBitsRead(i: nat)
    ensures IsBits(HexBits(i)) && BinToInt(HexBits(i)) == i && |HexBits(i)| >= 4
  {
    hide Bits, BinToInt, Power2;
    Sixteen();
    BitsRead(i % 16, 4);
    if i >= 16 {
      HexBitsRead(i / 16);
      BinToIntConcat(HexBits(i / 16), Bits(i % 16, 4));
    } else {
      assert i % 16 == i;
    }
  }

  lemma {:induction false} PaddedZeros(n: nat, s: string)
    requires IsBits(s)
    ensures IsBits(Zeros(n) + s) && BinToInt(Zeros(n) + s) == BinToInt(s)
  {
    BinToIntConcat(Zeros(n), s);
    NoOnes(Zeros(n));
    ZeroTimes(Power2(|s|));
  }

  lemma {:induction false} ZeroTimes(p: nat)
    ensures 0 * p == 0
  {
  }

  lemma {:induction false} HighPart(x: nat, p: nat, y: nat)
    requires y < p
    ensures x * p + y < p <==> x == 0
  {
    if x > 0 {
      assert x * p >= p;
    }
  }

  /** Cutting off high bits is noticed exactly when one of them is set. */
  lemma {:induction false} Cut(bits: string, n: nat)
    requires IsBits(bits) && 0 < n < |bits|
    ensures '1' in bits[..|bits| - n] <==> BinToInt(bits) >= Power2(n)
    ensures BinToInt(bits) < Power2(n) ==> bits[|bits| - n..] == Bits(BinToInt(bits), n)
  {
    hide Bits, BinToInt, Power2;
    var high, low := bits[..|bits| - n], bits[|bits| - n..];
    assert bits == high + low;
    BinToIntConcat(high, low);
    BinToIntBound(low);
    HighPart(BinToInt(high), Power2(n), BinToInt(low));
    NoOnes(high);
    BitsUnique(low);
    ZeroTimes(Power2(n));
  }

  lemma {:induction false} Padded(bits: string, n: nat)
    requires IsBits(bits) && |bits| <= n
    ensures Zeros(n - |bits|) + bits == Bits(BinToInt(bits), n) && BinToInt(bits) < Power2(n)
  {
    hide Bits, BinToInt, Power2;
    BinToIntBound(bits);
    PowerGrows(|bits|, n);
    PaddedZeros(n - |bits|, bits);
    BitsUnique(Zeros(n - |bits|) + bits);
  }

  /** `bin2int` of the `n` bits of a number that fits into them. */
  lemma {:induction false} BinToIntBits(i: nat, n: nat)
    requires i < Power2(n)
    ensures BinToInt(Bits(i, n)) == i
  {
    BitsRead(i, n);
    SmallRemainder(i, Power2(n));
  }

  /** Through hexadecimal and cut or padded, the result is the `n` bits of `i`, or an error exactly when
      they do not suffice or `i` is negative. */
  lemma {:induction false} IntToBinIff(i: int, n: nat)
    requires n > 0
    ensures IntToBin(i, n) == if i < 0 then KeyError else if i < Power2(n) then Bin(Bits(i, n)) else ValueError
  {
    hide Bits, BinToInt, Power2, HexBits, Zeros;
    if i < 0 {
      return;
    }
    var bits := HexBits(i);
    HexBitsRead(i);
    if n < |bits| {
      Cut(bits, n);
      assert "" + LastOf(bits, n) == LastOf(bits, n);
    } else {
      Padded(bits, n);
      assert Zeros(0) + bits == bits == "" + bits;
    }
  }

  lemma {:induction false} SmallRemainder(i: nat, p: nat)
    requires p > 0
    ensures i < p ==> i % p == i
  {
  }

  lemma {:induction false} PowerGrows(m: nat, n: nat)
    requires m <= n
    ensures Power2(m) <= Power2(n)
    decreases n - m
  {
    if m < n {
      PowerGrows(m + 1, n);
    }
  }

  /** Whole hexadecimal digits are written, and no more of them than needed. */
  lemma {:induction false} HexLength(i: nat)
    ensures |HexBits(i)| % 4 == 0 && |HexBits(i)| >= 4
    ensures |HexBits(i)| > 4 ==> Power2(|HexBits(i)| - 4) <= i
  {
    if i >= 16 {
      hide Bits;
      HexLength(i / 16);
      var n := |HexBits(i / 16)|;
      if n > 4 {
        FourMore(n - 4);
      } else {
        Sixteen();
      }
    }
  }

  lemma {:induction false} FourMore(n: nat)
    ensures Power2(n + 4) == 16 * Power2(n)
  {
    assert Power2(n + 2) == 4 * Power2(n);
  }

  /** Without bits there is no error: all of them come back, in whole hexadecimal digits. */
  lemma {:induction false} NoBitsNoError(i: nat)
    ensures IntToBin(i, 0).Bin?
    ensures var bits := IntToBin(i, 0).bits;
      && IsBits(bits) && BinToInt(bits) == i
      && |bits| % 4 == 0 && |bits| >= 4 && (|bits| > 4 ==> Power2(|bits| - 4) <= i)
  {
    assert "" + HexBits(i) == HexBits(i);
    hide HexBits, Bits, BinToInt, Power2;
    HexBitsRead(i);
    HexLength(i);
  }

  /* ----- the counter ----- */

  function Reversed(s: string): (r: string)
    ensures |r| == |s| && forall j :: 0 <= j < |s| ==> r[j] == s[|s| - 1 - j]
  {
    if s == "" then "" else Reversed(s[1..]) + [s[0]]
  }

  lemma {:induction false} ReversedTwice(s: string)
    ensures Reversed(Reversed(s)) == s
  {
  }

  /** Counting up turns the ones at the end to zeros and the zero before them to a one. */
  lemma {:induction false} CountUp(i: nat, n: nat, j: nat)
    requires j < n && Bits(i, n)[n - 1 - j] == '0' && forall k :: n - j <= k < n ==> Bits(i, n)[k] == '1'
    ensures Bits(i + 1, n) == Bits(i, n)[..n - 1 - j] + "1" + Zeros(j)
  {
    assert Bits(i, n)[n - 1] == Bit(i);
    if j == 0 {
      assert i % 2 == 0 && (i + 1) / 2 == i / 2;
      assert Bits(i, n)[..n - 1] == Bits(i / 2, n - 1);
      assert Zeros(0) == "";
    } else {
      assert i % 2 == 1 && (i + 1) / 2 == i / 2 + 1;
      assert Bits(i / 2, n - 1) == Bits(i, n)[..n - 1];
      CountUp(i / 2, n - 1, j - 1);
      assert Zeros(j) == Zeros(j - 1) + "0";
      assert Bits(i / 2, n - 1)[..n - 1 - j] == Bits(i, n)[..n - 1 - j];
    }
  }

  ghost predicate Full(s: string) {
    forall k :: 0 <= k < |s| ==> s[k] == '1'
  }

  lemma {:induction false} FullLonger(s: string, c: char)
    ensures Full(s + [c]) <==> Full(s) && c == '1'
  {
    assert forall k :: 0 <= k < |s| ==> (s + [c])[k] == s[k];
    assert (s + [c])[|s|] == c;
  }

  lemma {:induction false} AllOnes(i: nat, n: nat)
    requires i < Power2(n)
    ensures Full(Bits(i, n)) <==> i == Power2(n) - 1
  {
    if n > 0 {
      hide Full;
      AllOnes(i / 2, n - 1);
      FullLonger(Bits(i / 2, n - 1), Bit(i));
    } else {
      assert Power2(0) == 1;
    }
  }

  /** The number, its lowest bit first. */
  ghost predicate LowFirst(s: string, i: nat, n: nat) {
    s == Reversed(Bits(i, n))
  }

  lemma {:induction false} LowFirstIff(s: string, i: nat, n: nat)
    requires |s| == n
    ensures LowFirst(s, i, n) <==> forall j :: 0 <= j < n ==> s[j] == Bits(i, n)[n - 1 - j]
  {
    hide Bits, Reversed;
    assert forall j :: 0 <= j < n ==> Reversed(Bits(i, n))[j] == Bits(i, n)[n - 1 - j];
  }

  lemma {:induction false} Shown(s: string, i: nat, n: nat)
    requires LowFirst(s, i, n)
    ensures Reversed(s) == Bits(i, n)
  {
    ReversedTwice(Bits(i, n));
  }

  lemma {:induction false} ZerosLowFirst(s: string, n: nat)
    requires |s| == n && forall j :: 0 <= j < n ==> s[j] == '0'
    ensures LowFirst(s, 0, n)
  {
    hide Reversed;
    AllZeros(n);
    assert s == Reversed(Bits(0, n));
  }

  /** The inner loop: `v` holds the number with its lowest bit first. */
  method Increment(v: array<char>, toggle: array<int>, ghost k: nat)
    requires toggle.Length == v.Length + 1 && k < Power2(v.Length) && LowFirst(v[..], k, v.Length)
    requires toggle[0] == 1 && (v.Length > 0 ==> toggle[v.Length] == 0)
    modifies v, toggle
    ensures toggle[v.Length] == 1 <==> v.Length == 0 || k + 1 == Power2(v.Length)
    ensures k + 1 < Power2(v.Length) ==> LowFirst(v[..], k + 1, v.Length)
  {
    hide Bits, Power2, Reversed, LowFirst;
    ghost var bits, n := Bits(k, v.Length), v.Length;
    LowFirstIff(v[..], k, n);
    var i := 0;
    while i < v.Length && toggle[i] == 1
      invariant 0 <= i <= n && (toggle[i] == 0 || toggle[i] == 1) && (i < n ==> toggle[n] == 0)
      invariant forall j :: i <= j < n ==> v[j] == bits[n - 1 - j]
      invariant toggle[i] == 1 ==> forall j :: 0 <= j < i ==> v[j] == '0'
      invariant toggle[i] == 1 ==> forall k :: n - i <= k < n ==> bits[k] == '1'
      invariant toggle[i] == 0 ==> i > 0 && v[i - 1] == '1' && bits[n - i] == '0'
                                   && (forall j :: 0 <= j < i - 1 ==> v[j] == '0')
                                   && forall k :: n - i < k < n ==> bits[k] == '1'
    {
      BitAt(k, n, n - 1 - i);
      if v[i] == '0' {
        v[i] := '1';
        toggle[i + 1] := 0;
      } else {
        v[i] := '0';
        toggle[i + 1] := 1;
      }
      i := i + 1;
    }
    AllOnes(k, n);
    if toggle[i] == 0 {
      CountUp(k, n, i - 1);
      LowFirstIff(v[..], k + 1, n);
    }
  }

  lemma {:induction false} BitAt(i: nat, n: nat, j: nat)
    requires j < n
    ensures Bits(i, n)[j] == '0' || Bits(i, n)[j] == '1'
  {
    BitsRead(i, n);
  }

  /** All strings of the given number of bits, in order.  Without bits there are none. */
  method BinaryRange(bits: nat) returns (l: seq<string>)
    ensures bits == 0 ==> l == []
    ensures bits > 0 ==> |l| == Power2(bits) && forall k :: 0 <= k < |l| ==> IntToBin(k, bits) == Bin(l[k])
  {
    hide Bits, Power2, Reversed, IntToBin, LowFirst;
    l := [];
    var v := new char[bits](_ => '0');
    var toggle := new int[bits + 1](i => if i == 0 then 1 else 0);
    ZerosLowFirst(v[..], bits);
    while toggle[bits] != 1
      invariant fresh(v) && fresh(toggle) && v.Length == bits && toggle.Length == bits + 1
      invariant |l| <= Power2(bits) && (bits == 0 ==> toggle[0] == 1 && l == [])
      invariant bits > 0 ==> (toggle[bits] == 1 <==> |l| == Power2(bits))
      invariant |l| < Power2(bits) ==> LowFirst(v[..], |l|, bits)
      invariant forall k :: 0 <= k < |l| ==> l[k] == Bits(k, bits)
      decreases Power2(bits) - |l|
    {
      var copy := Reversed(v[..]);
      Shown(v[..], |l|, bits);
      toggle := new int[bits + 1](i => if i == 0 then 1 else 0);
      Increment(v, toggle, |l|);
      l := l + [copy];
    }
    AllWritten(l, bits);
  }

  lemma {:induction false} AllWritten(l: seq<string>, bits: nat)
    requires |l| <= Power2(bits) && forall k :: 0 <= k < |l| ==> l[k] == Bits(k, bits)
    ensures bits > 0 ==> forall k :: 0 <= k < |l| ==> IntToBin(k, bits) == Bin(l[k])
  {
    hide Power2, Bits, IntToBin;
    if bits > 0 {
      forall k | 0 <= k < |l|
        ensures IntToBin(k, bits) == Bin(l[k])
      {
        IntToBinIff(k, bits);
      }
    }
  }

  lemma {:induction false} AllZeros(n: nat)
    ensures Bits(0, n) == Zeros(n)
  {
    if n > 0 {
      AllZeros(n - 1);
      assert Zeros(n) == Zeros(n - 1) + "0";
    }
  }
}
