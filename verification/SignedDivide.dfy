/** __divdi3, __moddi3 and __adddi3: signed 64-bit division on top of __qdivrem, and the division
    identity across the division, remainder, multiplication and addition routines. */
module SignedDivide {
  import opened Words
  import opened Digits
  import opened Products
  import opened QDivRem
  import opened Multiply

  /** Trap is the deliberate division by zero inside __qdivrem. */
  datatype SignedResult = Trap | Value(v: sdword)

  /** ua = a; if (a < 0) ua = -ua; */
  function Magnitude64(a: sdword): dword {
    if a < 0 then Neg64(Bits(a)) else Bits(a)
  }

  function DivDI3(a: sdword, b: sdword): SignedResult {
    match Divide64(Magnitude64(a), Magnitude64(b))
    case DivideByZero => Trap
    case Divided64(uq, _) => Value(ToSigned(if (a < 0) != (b < 0) then Neg64(uq) else uq))
  }

  function ModDI3(a: sdword, b: sdword): SignedResult {
    match Divide64(Magnitude64(a), Magnitude64(b))
    case DivideByZero => Trap
    case Divided64(_, ur) => Value(ToSigned(if a < 0 then Neg64(ur) else ur))
  }

  /** The carry out of the low words is found by comparing the wrapped sum with an addend. */
  function AddDI3(a: sdword, b: sdword): sdword {
    var lo := Add32(Lo(Bits(a)), Lo(Bits(b)));
    ToSigned(Join(Add32(Add32(Hi(Bits(a)), Hi(Bits(b))), if lo < Lo(Bits(b)) then 1 else 0), lo))
  }

  function Abs(x: int): nat {
    if x < 0 then -x else x
  }

  /** The quotient of the integers, rounded toward zero. */
  function Truncated(a: int, b: int): int
    requires b != 0
  {
    if (a < 0) != (b < 0) then -(Abs(a) / Abs(b)) else Abs(a) / Abs(b)
  }

  lemma MagnitudeIs(a: sdword)
    ensures Magnitude64(a) == Abs(a)
  {
  }

  lemma NegateSmall(x: dword)
    requires x <= 0x8000_0000_0000_0000
    ensures ToSigned(Neg64(x)) == if x == 0 then 0 else 0 - (x as int)
    ensures x < 0x8000_0000_0000_0000 ==> ToSigned(x) == x
  {
  }

  lemma WrapSigned(x: int)
    requires -0x8000_0000_0000_0000 <= x <= 0x8000_0000_0000_0000
    ensures ToSigned(U64(x)) == if x == 0x8000_0000_0000_0000 then -x else x
  {
  }

  lemma DivideMagnitudes(x: dword, y: dword, q: dword, r: dword)
    requires y != 0 && q == x / y && r == x % y
    ensures Divide64(x, y) == Divided64(q, r)
  {
  }

  lemma Unfolded(a: sdword, b: sdword, q: dword, r: dword)
    requires Divide64(Magnitude64(a), Magnitude64(b)) == Divided64(q, r)
    ensures DivDI3(a, b) == Value(ToSigned(if (a < 0) != (b < 0) then Neg64(q) else q))
    ensures ModDI3(a, b) == Value(ToSigned(if a < 0 then Neg64(r) else r))
  {
  }

  /** Both results in terms of the magnitudes' quotient q and remainder r. */
  lemma SignedParts(a: sdword, b: sdword, q: nat, r: nat)
    requires b != 0 && q == Abs(a) / Abs(b) && r == Abs(a) % Abs(b)
    requires q <= 0x8000_0000_0000_0000 && r < 0x8000_0000_0000_0000
    ensures DivDI3(a, b) == Value(ToSigned(U64(if (a < 0) != (b < 0) then 0 - q else q)))
    ensures ModDI3(a, b) == Value(if a < 0 then 0 - r else r)
  {
    MagnitudeIs(a);
    MagnitudeIs(b);
    DivideMagnitudes(Abs(a), Abs(b), q, r);
    Unfolded(a, b, q, r);
    hide DivDI3, ModDI3, Divide64, Abs, ToSigned, Neg64, Magnitude64;
    NegateSmall(r);
    NegateWraps(q);
  }

  lemma NegateWraps(q: dword)
    ensures Neg64(q) == U64(0 - (q as int)) && q == U64(q)
  {
  }

  /** |a| = q*|b| + r, and the quotient reaches 2^63 only for the most negative number over 1 or -1. */
  lemma MagnitudeParts(x: nat, y: nat) returns (q: nat, r: nat)
    requires y > 0 && x <= 0x8000_0000_0000_0000 && y <= 0x8000_0000_0000_0000
    ensures q == x / y && r == x % y && x == q * y + r && r < y && q <= x
    ensures r < 0x8000_0000_0000_0000
    ensures q == 0x8000_0000_0000_0000 <==> x == 0x8000_0000_0000_0000 && y == 1
  {
    QuotientBelow(x, y);
    q, r := x / y, x % y;
    if y == 1 {
      assert q == x;
    } else if q >= 0x8000_0000_0000_0000 {
      MulMono(2, y, q);
      assert false;
    }
  }

  /** Truncating division, wrapped to 64 bits: the one quotient that does not fit is 2^63, which
      only the most negative number divided by -1 has. */
  lemma DivTruncates(a: sdword, b: sdword)
    requires b != 0
    ensures DivDI3(a, b) == Value(ToSigned(U64(Truncated(a, b))))
    ensures DivDI3(a, b).v == Truncated(a, b) <==> !(a == -0x8000_0000_0000_0000 && b == -1)
  {
    var q, r := MagnitudeParts(Abs(a), Abs(b));
    SignedParts(a, b, q, r);
    TruncatedIs(a, b, q);
    hide *;
    WrapSigned(Truncated(a, b));
    AbsIs(a, b);
  }

  lemma TruncatedIs(a: int, b: int, q: int)
    requires b != 0 && q == Abs(a) / Abs(b)
    ensures Truncated(a, b) == if (a < 0) != (b < 0) then 0 - q else q
  {
  }

  lemma AbsIs(a: sdword, b: sdword)
    ensures Abs(a) == 0x8000_0000_0000_0000 <==> a == -0x8000_0000_0000_0000
    ensures Abs(b) == 1 <==> b == 1 || b == -1
  {
  }

  lemma OnlyZeroTraps(a: sdword, b: sdword)
    ensures DivDI3(a, b) == Trap <==> b == 0
    ensures ModDI3(a, b) == Trap <==> b == 0
  {
    MagnitudeIs(b);
  }

  /** The remainder is smaller than the divisor, takes the sign of the dividend, and completes the
      truncated quotient. */
  lemma ModTakesSign(a: sdword, b: sdword)
    requires b != 0
    ensures ModDI3(a, b).Value?
    ensures var r: int := ModDI3(a, b).v;
            && Abs(r) < Abs(b) && (r == 0 || (r < 0 <==> a < 0))
            && a == Truncated(a, b) * b + r
  {
    var q, r := MagnitudeParts(Abs(a), Abs(b));
    SignedParts(a, b, q, r);
    SignedIdentity(a, b, q, r);
    TruncatedIs(a, b, q);
  }

  lemma SignedIdentity(a: int, b: int, q: nat, r: nat)
    requires Abs(a) == q * Abs(b) + r
    ensures a == (if (a < 0) != (b < 0) then 0 - q else q) * b + if a < 0 then 0 - r else r
  {
    NegateProduct(q, b);
  }

  lemma NegateProduct(q: int, b: int)
    ensures (0 - q) * b == 0 - q * b && q * (0 - b) == 0 - q * b
  {
  }

  /** The half-word carry comparison adds modulo 2^64. */
  lemma AddWraps(a: sdword, b: sdword)
    ensures AddDI3(a, b) == ToSigned(U64((a as int) + (b as int)))
  {
    AddWords(Bits(a), Bits(b));
    hide Add32, Join, ToSigned, U64, Lo, Hi;
    WrapTwice(a, U64(b));
    WrapTwice(b, a);
  }

  lemma CarryBit(x: word, y: word)
    ensures (x as int) + (y as int) == (Add32(x, y) as int) + if Add32(x, y) < y then 0x1_0000_0000 else 0
  {
  }

  lemma AddWords(x: dword, y: dword)
    ensures var lo := Add32(Lo(x), Lo(y));
            Join(Add32(Add32(Hi(x), Hi(y)), if lo < Lo(y) then 1 else 0), lo) == U64((x as int) + (y as int))
  {
    var xl: int, yl: int, xh: int, yh: int := Lo(x), Lo(y), Hi(x), Hi(y);
    var lo := Add32(Lo(x), Lo(y));
    var c: int := if lo < Lo(y) then 1 else 0;
    hide *;
    JoinParts(x);
    JoinParts(y);
    CarryBit(Lo(x), Lo(y));
    TwoSums(Hi(x), Hi(y), c);
    HighWord(xh + yh + c, lo);
    assert (xh + yh + c) * 0x1_0000_0000 + (lo as int) == (x as int) + (y as int);
  }

  lemma TwoSums(x: word, y: word, c: word)
    ensures Add32(Add32(x, y), c) == U32((x as int) + (y as int) + (c as int))
  {
    Wrap32((x as int) + (y as int), c);
  }

  /** Division, multiplication, remainder and addition fit together, for every dividend and every
      nonzero divisor: also for the most negative number over -1, where the quotient wraps. */
  lemma DivisionIdentity(a: sdword, b: sdword)
    requires b != 0
    ensures DivDI3(a, b).Value? && ModDI3(a, b).Value?
    ensures AddDI3(MulWrapped(DivDI3(a, b).v, b), ModDI3(a, b).v) == a
  {
    DivTruncates(a, b);
    ModTakesSign(a, b);
    hide DivDI3, ModDI3, MulWrapped, AddDI3, Truncated, Abs, ToSigned, U64;
    IdentityOfWraps(a, b, Truncated(a, b), DivDI3(a, b).v, ModDI3(a, b).v);
  }

  lemma IdentityOfWraps(a: sdword, b: sdword, t: int, q: sdword, r: sdword)
    requires (a as int) == t * (b as int) + (r as int) && q == ToSigned(U64(t))
    ensures AddDI3(MulWrapped(q, b), r) == a
  {
    hide *;
    var qi: int, bi: int, ri: int, ai: int := q, b, r, a;
    AddWraps(MulWrapped(q, b), r);
    SignedBits(U64(t));
    ProductWraps(t, qi, bi);
    MulWrappedIs(q, b);
    SumWraps64(t * bi, ri);
    assert t * bi + ri == ai;
    WrapOfSelf(a);
  }

  lemma MulWrappedIs(q: sdword, b: sdword)
    ensures MulWrapped(q, b) == ToSigned(U64((q as int) * (b as int)))
  {
  }

  lemma SignedBits(x: dword)
    ensures U64(ToSigned(x)) == x
  {
  }

  lemma ProductWraps(t: int, q: int, b: int)
    requires U64(q) == U64(t)
    ensures U64(q * b) == U64(t * b)
  {
    var k := (q - t) / 0x1_0000_0000_0000_0000;
    assert q == t + k * 0x1_0000_0000_0000_0000;
    Distribute(t, k * 0x1_0000_0000_0000_0000, b);
    Regroup64(k, b);
    WrapShift(t * b, k * b);
  }

  lemma Regroup64(k: int, b: int)
    ensures k * 0x1_0000_0000_0000_0000 * b == k * b * 0x1_0000_0000_0000_0000
  {
  }

  lemma SumWraps64(x: int, r: int)
    ensures U64((ToSigned(U64(x)) as int) + r) == U64(x + r)
  {
    WrapTwice(ToSigned(U64(x)), r);
    SignedBits(U64(x));
    WrapTwice(x, r);
  }

  lemma WrapOfSelf(a: sdword)
    ensures ToSigned(U64(a)) == a
  {
  }
}
