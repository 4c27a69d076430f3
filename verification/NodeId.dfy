/** Node identifiers as numbers under the XOR metric (section 2.1 of the Kademlia paper), and
    byte vectors as their fixed-width encoding. */
module NodeId {
  import opened Types
  import opened Sequences

  type Id = nat

  function Pow2(n: nat): (p: nat)
    ensures p > 0
  {
    if n == 0 then 1 else 2 * Pow2(n - 1)
  }

  /** Exclusive or, bit by bit from the low end. */
  function Xor(a: nat, b: nat): nat
    decreases a + b
  {
    if a == 0 && b == 0 then 0 else (a % 2 + b % 2) % 2 + 2 * Xor(a / 2, b / 2)
  }

  /** The number of bits up to the highest one that is set. */
  function Bits(n: nat): nat {
    if n == 0 then 0 else 1 + Bits(n / 2)
  }

  // ----- the metric

  lemma {:induction false} XorCommutes(a: nat, b: nat)
    ensures Xor(a, b) == Xor(b, a)
    decreases a + b
  {
    if a != 0 || b != 0 { XorCommutes(a / 2, b / 2); }
  }

  lemma {:induction false} XorCancels(a: nat, b: nat)
    ensures Xor(a, Xor(a, b)) == b
    decreases a + b
  {
    if a != 0 || b != 0 {
      XorCancels(a / 2, b / 2);
      hide Xor;
      XorUnfold(a, b);
      XorUnfold(a, Xor(a, b));
      BitsCancel(a, b, Xor(a, b), Xor(a / 2, b / 2));
    }
  }

  lemma BitsCancel(a: nat, b: nat, x: nat, h: nat)
    requires x == (a % 2 + b % 2) % 2 + 2 * h
    ensures (a % 2 + x % 2) % 2 == b % 2 && x / 2 == h
  {
  }

  lemma XorUnfold(a: nat, b: nat)
    ensures Xor(a, b) == (a % 2 + b % 2) % 2 + 2 * Xor(a / 2, b / 2)
  {
  }

  /** From a given point, every distance belongs to one id; only the point itself is at zero. */
  lemma DistanceIsUnique(a: nat, b: nat, c: nat)
    requires Xor(a, b) == Xor(a, c)
    ensures b == c
  {
    XorCancels(a, b);
    XorCancels(a, c);
  }

  /** Bit i of a number. */
  function Bit(n: nat, i: nat): nat {
    if i == 0 then n % 2 else Bit(n / 2, i - 1)
  }

  /** A bit of the result is set exactly when it is set in one of the two. */
  lemma {:induction false} XorBit(a: nat, b: nat, i: nat)
    ensures Bit(Xor(a, b), i) == if Bit(a, i) != Bit(b, i) then 1 else 0
  {
    XorUnfold(a, b);
    hide Xor;
    BitsCancel(a, b, Xor(a, b), Xor(a / 2, b / 2));
    if i == 0 {
      LowBit(a, b, Xor(a / 2, b / 2));
    } else {
      XorBit(a / 2, b / 2, i - 1);
    }
  }

  lemma LowBit(a: nat, b: nat, h: nat)
    ensures ((a % 2 + b % 2) % 2 + 2 * h) % 2 == if a % 2 != b % 2 then 1 else 0
  {
  }

  lemma {:induction false} XorSelf(a: nat)
    ensures Xor(a, a) == 0
  {
    if a != 0 { XorSelf(a / 2); }
  }

  lemma ZeroOnlyAtSelf(a: nat, b: nat)
    ensures Xor(a, b) == 0 <==> a == b
  {
    XorSelf(a);
    if Xor(a, b) == 0 { DistanceIsUnique(a, b, a); }
  }

  lemma {:induction false} TriangleInequality(a: nat, b: nat, c: nat)
    ensures Xor(a, c) <= Xor(a, b) + Xor(b, c)
    decreases a + b + c
  {
    if a == b == c == 0 {
    } else {
      hide Xor;
      TriangleInequality(a / 2, b / 2, c / 2);
      XorUnfold(a, b);
      XorUnfold(b, c);
      XorUnfold(a, c);
      BitTriangle(a % 2, b % 2, c % 2);
    }
  }

  lemma BitTriangle(x: nat, y: nat, z: nat)
    requires x < 2 && y < 2 && z < 2
    ensures (x + z) % 2 <= (x + y) % 2 + (y + z) % 2
  {
  }

  /** `Bits` finds the power of two at or below a number. */
  lemma {:induction false} BitsBound(n: nat)
    ensures n < Pow2(Bits(n))
    ensures n > 0 ==> Pow2(Bits(n) - 1) <= n
  {
    if n > 0 { BitsBound(n / 2); }
  }

  lemma {:induction false} BitsUnique(n: nat, k: nat)
    requires k > 0 && Pow2(k - 1) <= n < Pow2(k)
    ensures Bits(n) == k
  {
    if k > 1 { BitsUnique(n / 2, k - 1); }
    else { assert Pow2(0) == 1 && n == 1 && Bits(0) == 0; }
  }

  // ----- byte vectors

  function XorByte(a: Byte, b: Byte): Byte {
    XorFits(0, 0, 8);
    XorFits(a, b, 8);
    Xor(a, b)
  }

  /** Digit by digit, as far as both go. */
  function XorBytes(a: seq<Byte>, b: seq<Byte>): (r: seq<Byte>)
    ensures |r| == Min(|a|, |b|)
  {
    seq<Byte>(Min(|a|, |b|), i requires 0 <= i < |a| && i < |b| => XorByte(a[i], b[i]))
  }

  lemma {:induction false} XorFits(a: nat, b: nat, k: nat)
    requires a < Pow2(k) && b < Pow2(k)
    ensures Xor(a, b) < Pow2(k) && Pow2(8) == 256
  {
    assert Pow2(8) == 256 by {
      assert Pow2(4) == 16;
    }
    if k > 0 && (a != 0 || b != 0) { XorFits(a / 2, b / 2, k - 1); }
  }

  lemma {:induction false} XorOfParts(p: nat, q: nat, x: nat, y: nat, k: nat)
    requires x < Pow2(k) && y < Pow2(k)
    ensures Xor(Pow2(k) * p + x, Pow2(k) * q + y) == Pow2(k) * Xor(p, q) + Xor(x, y)
  {
    if k == 0 {
      assert x == y == 0 && Xor(0, 0) == 0;
    } else {
      assert Pow2(k) == 2 * Pow2(k - 1);
      XorOfParts(p, q, x / 2, y / 2, k - 1);
      XorOfPartsStep(p, q, x, y, Pow2(k - 1));
    }
  }

  lemma XorOfPartsStep(p: nat, q: nat, x: nat, y: nat, h: nat)
    requires Xor(h * p + x / 2, h * q + y / 2) == h * Xor(p, q) + Xor(x / 2, y / 2)
    ensures Xor(2 * h * p + x, 2 * h * q + y) == 2 * h * Xor(p, q) + Xor(x, y)
  {
    hide *;
    DoubleStep(h, p, x);
    DoubleStep(h, q, y);
    XorUnfold(2 * h * p + x, 2 * h * q + y);
    XorUnfold(x, y);
    Regroup(h, Xor(p, q));
  }

  lemma Regroup(h: nat, z: nat)
    ensures 2 * (h * z) == (2 * h) * z
  {
  }

  lemma DoubleStep(h: nat, p: nat, x: nat)
    ensures (2 * h * p + x) / 2 == h * p + x / 2 && (2 * h * p + x) % 2 == x % 2
  {
    assert 2 * h * p == 2 * (h * p);
  }

  /** Vectors are XORed, as far as both go, as the numbers they encode. */
  lemma XorBytesIsXor(a: seq<Byte>, b: seq<Byte>)
    ensures var n := Min(|a|, |b|); BigEndian(XorBytes(a, b)) == Xor(BigEndian(a[..n]), BigEndian(b[..n]))
  {
    var n := Min(|a|, |b|);
    assert XorBytes(a, b) == XorBytes(a[..n], b[..n]);
    XorOfOneWidth(a[..n], b[..n]);
  }

  lemma {:induction false} XorOfOneWidth(a: seq<Byte>, b: seq<Byte>)
    requires |a| == |b|
    ensures BigEndian(XorBytes(a, b)) == Xor(BigEndian(a), BigEndian(b))
  {
    if a == [] {
      assert Xor(0, 0) == 0;
    } else {
      hide Xor;
      hide Pow2;
      var n := |a| - 1;
      XorOfOneWidth(a[..n], b[..n]);
      assert XorBytes(a, b)[..n] == XorBytes(a[..n], b[..n]);
      XorFits(0, 0, 8);
      XorOfParts(BigEndian(a[..n]), BigEndian(b[..n]), a[n], b[n], 8);
    }
  }

  lemma Swap(p: nat, q: nat)
    ensures p * (2 * q) == 2 * (p * q)
  {
  }

  lemma {:induction false} PowSum(a: nat, b: nat)
    ensures Pow2(a) * Pow2(b) == Pow2(a + b)
  {
    if b > 0 {
      PowSum(a, b - 1);
      Swap(Pow2(a), Pow2(b - 1));
    }
  }

  /** The first digit weighs most. */
  lemma {:induction false} ValueFront(d: Byte, t: seq<Byte>)
    ensures BigEndian([d] + t) == d * Pow2(8 * |t|) + BigEndian(t) && BigEndian(t) < Pow2(8 * |t|)
  {
    var s := [d] + t;
    if t == [] {
      assert s[..0] == [];
    } else {
      var n := |t| - 1;
      ValueFront(d, t[..n]);
      assert s[..n + 1] == [d] + t[..n];
      PowSum(8 * n, 8);
      XorFits(0, 0, 8);
      AppendDigit(d, Pow2(8 * n), BigEndian(t[..n]), t[n]);
      assert BigEndian(s) == 256 * BigEndian(s[..n + 1]) + t[n];
      assert BigEndian(t) == 256 * BigEndian(t[..n]) + t[n];
      hide Pow2;
      hide BigEndian;
    }
  }

  lemma AppendDigit(d: Byte, p: nat, v: nat, last: Byte)
    requires v < p
    ensures 256 * (d * p + v) + last == d * (p * 256) + (256 * v + last)
    ensures 256 * v + last < p * 256
  {
  }

  lemma BitsFront(d: Byte, t: seq<Byte>)
    requires d > 0
    ensures Bits(BigEndian([d] + t)) == Bits(d) + 8 * |t|
  {
    hide *;
    ValueFront(d, t);
    BitsBound(d);
    BitsPositive(d);
    BitsShifted(BigEndian([d] + t), d, BigEndian(t), Bits(d), 8 * |t|);
  }

  lemma BitsPositive(d: nat)
    requires d > 0
    ensures Bits(d) > 0
  {
  }

  lemma BitsShifted(v: nat, d: nat, x: nat, k: nat, w: nat)
    requires k > 0 && Pow2(k - 1) <= d < Pow2(k)
    requires x < Pow2(w) && v == d * Pow2(w) + x
    ensures Bits(v) == k + w
  {
    hide *;
    PowSum(k - 1, w);
    PowSum(k, w);
    MultiplyBounds(Pow2(k - 1), d, Pow2(k), Pow2(w), x);
    assert k - 1 + w == k + w - 1;
    BitsUnique(v, k + w);
  }

  lemma MultiplyBounds(lo: nat, d: nat, hi: nat, p: nat, x: nat)
    requires lo <= d < hi && x < p
    ensures lo * p <= d * p + x < hi * p
  {
    assert (d + 1) * p <= hi * p;
    assert lo * p <= d * p;
  }

  /** `leading_zeros` of a byte. */
  function LeadingZeros(d: Byte): (z: nat)
    ensures z == 8 - Bits(d) as int && z <= 8
  {
    BitsBound(d);
    ByteBits(d);
    8 - Bits(d)
  }

  lemma ByteBits(d: Byte)
    ensures Bits(d) <= 8
  {
    BitsBound(d);
    XorFits(0, 0, 8);
    if Bits(d) > 8 { PowGrows(8, Bits(d) - 1); }
  }

  lemma {:induction false} PowGrows(a: nat, b: nat)
    requires a <= b
    ensures Pow2(a) <= Pow2(b)
  {
    if a < b { PowGrows(a, b - 1); }
  }

  /** `bits` on a byte vector counts the bits of the number it encodes. */
  method BitsOfBytes(bytes: seq<Byte>) returns (bits: nat)
    ensures bits == Bits(BigEndian(bytes))
  {
    bits := |bytes| * 8;
    for i := 0 to |bytes|
      invariant bits == 8 * (|bytes| - i)
      invariant BigEndian(bytes) == BigEndian(bytes[i..])
    {
      var digit := bytes[i];
      assert bytes[i..] == [digit] + bytes[i + 1..];
      ValueFront(digit, bytes[i + 1..]);
      if digit == 0 {
        bits := bits - 8;
      } else {
        BitsFront(digit, bytes[i + 1..]);
        return bits - LeadingZeros(digit);
      }
    }
  }

  /** The order of byte vectors that sorting uses. */
  predicate Before(a: seq<Byte>, b: seq<Byte>) {
    b != [] && (a == [] || a[0] < b[0] || (a[0] == b[0] && Before(a[1..], b[1..])))
  }

  /** It is the order of the numbers as far as both go; a proper prefix comes first. */
  lemma {:induction false} BeforeIsLess(a: seq<Byte>, b: seq<Byte>)
    ensures var n := Min(|a|, |b|);
            var (x, y) := (BigEndian(a[..n]), BigEndian(b[..n]));
            (Before(a, b) <==> x < y || (x == y && |a| < |b|)) && (x == y <==> a[..n] == b[..n])
  {
    if a == [] || b == [] {
      assert a[..0] == [] == b[..0];
    } else {
      var n := Min(|a|, |b|) - 1;
      var u, v := a[1..], b[1..];
      BeforeIsLess(u, v);
      assert a[..n + 1] == [a[0]] + u[..n] && b[..n + 1] == [b[0]] + v[..n];
      ValueFront(a[0], u[..n]);
      ValueFront(b[0], v[..n]);
      hide BigEndian;
      DigitFirst(a[0], b[0], Pow2(8 * n), BigEndian(u[..n]), BigEndian(v[..n]));
    }
  }

  lemma DigitFirst(d: Byte, e: Byte, p: nat, x: nat, y: nat)
    requires x < p && y < p
    ensures d * p + x < e * p + y <==> d < e || (d == e && x < y)
    ensures d * p + x == e * p + y <==> d == e && x == y
  {
    if d < e { MultiplyBounds(0, d, e, p, x); }
    if e < d { MultiplyBounds(0, e, d, p, y); }
  }
}
