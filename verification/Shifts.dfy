/** Multi-digit shifts of qdivrem.c: `shl', and the loop that un-normalises the remainder. */
module Shifts {
  import opened Words
  import opened Digits
  import opened Products

  /** Both shift distances of one digit: sh bits one way, 16 - sh the other. */
  lemma SplitDigit(sh: nat)
    requires 1 <= sh <= 15
    ensures Pow2(sh) * Pow2(16 - sh) == 0x1_0000
    ensures 2 <= Pow2(sh) <= 0x8000 && 2 <= Pow2(16 - sh) <= 0x8000
  {
    assert Pow2(1) == 2 && Pow2(2) == 4 && Pow2(3) == 8 && Pow2(4) == 16;
    assert Pow2(5) == 32 && Pow2(6) == 64 && Pow2(7) == 128 && Pow2(8) == 256;
    assert Pow2(9) == 512 && Pow2(10) == 1024 && Pow2(11) == 2048 && Pow2(12) == 4096;
    assert Pow2(13) == 8192 && Pow2(14) == 16384 && Pow2(15) == 32768;
  }

  /** (digit)(LHALF(x << sh) | (y >> (16 - sh))) */
  function ShlDigit(x: digit, y: digit, sh: nat): digit
    requires 1 <= sh <= 15
  {
    ShlParts(x, y, sh);
    Or(LHalf(Shl32(x, sh)), Shr32(y, 16 - sh), Pow2(sh))
  }

  lemma ShlParts(x: digit, y: digit, sh: nat)
    requires 1 <= sh <= 15
    ensures var k, c := Pow2(sh), Pow2(16 - sh);
            && LHalf(Shl32(x, sh)) == (x % c) * k && x * k == (x / c) * 0x1_0000 + (x % c) * k
            && LHalf(Shl32(x, sh)) % k == 0 && Shr32(y, 16 - sh) < k
            && LHalf(Shl32(x, sh)) + Shr32(y, 16 - sh) <= 0xFFFF
  {
    SplitDigit(sh);
    var k, c := Pow2(sh), Pow2(16 - sh);
    hide *;
    LowBits(x, k, c);
    QuotientLess(y, c, k);
    MultipleMod(x % c, k);
    PartsUnfold(x, y, sh);
  }

  lemma PartsUnfold(x: digit, y: digit, sh: nat)
    requires 1 <= sh <= 15
    ensures LHalf(Shl32(x, sh)) == U32(x * Pow2(sh)) % 0x1_0000
    ensures Shr32(y, 16 - sh) == y / Pow2(16 - sh)
  {
  }

  lemma LowBits(x: digit, k: nat, c: nat)
    requires k * c == 0x1_0000 && 2 <= k <= 0x8000 && 2 <= c <= 0x8000
    ensures x * k == (x / c) * 0x1_0000 + (x % c) * k
    ensures 0 <= (x % c) * k <= 0x1_0000 - k
    ensures U32(x * k) % 0x1_0000 == (x % c) * k
  {
    var h, l := x / c, x % c;
    Scale(h, c, l, k, x);
    MulMono(l, c - 1, k);
    MulMono(0, l, k);
    Distribute(c, -1, k);
    MulMono(x, 0xFFFF, k);
    MulMono(0, x, k);
    ModOfSum(h, l * k, x * k);
  }

  lemma Scale(h: int, c: int, l: int, k: int, x: int)
    requires x == h * c + l && k * c == 0x1_0000
    ensures x * k == h * 0x1_0000 + l * k
  {
    Distribute(h * c, l, k);
    Regroup(h, c, k, 0x1_0000);
  }

  lemma Regroup(h: int, c: int, k: int, m: int)
    requires m == k * c
    ensures (h * c) * k == h * m
  {
    assert (h * c) * k == h * (k * c);
  }

  lemma ModOfSum(h: int, r: nat, x: nat)
    requires r <= 0xFFFF && x == h * 0x1_0000 + r && x < 0x1_0000_0000
    ensures U32(x) % 0x1_0000 == r
  {
  }

  lemma QuotientLess(y: nat, c: nat, k: nat)
    requires c > 0 && y < c * k
    ensures y / c < k
  {
    if y / c >= k {
      MulMono(k, y / c, c);
      assert false;
    }
  }

  lemma {:induction false} MultipleMod(a: nat, k: nat)
    requires k > 0
    ensures (a * k) % k == 0
  {
    if a > 0 {
      MultipleMod(a - 1, k);
      Distribute(a - 1, 1, k);
      assert (a * k) == (a - 1) * k + k;
      AddPeriod((a - 1) * k, k);
    }
  }

  lemma AddPeriod(x: nat, k: nat)
    requires k > 0 && x % k == 0
    ensures (x + k) % k == 0
  {
    var q := x / k;
    assert x == q * k;
    assert x + k == (q + 1) * k;
    UniqueQuotient(x + k, k, q + 1, 0);
  }

  /** t is s shifted left by sh bits, digit by digit, zeros shifted in. */
  predicate IsShl(s: seq<digit>, t: seq<digit>, sh: nat)
    requires 1 <= sh <= 15
  {
    && |s| == |t|
    && forall j :: 0 <= j < |s| ==> t[j] == ShlDigit(s[j], DigitAfter(s, j), sh)
  }

  function DigitAfter(s: seq<digit>, j: nat): digit
    requires j < |s|
  {
    if j + 1 < |s| then s[j + 1] else 0
  }

  /** The bits of x that leave the digit. */
  function FallsOut(x: digit, sh: nat): nat
    requires 1 <= sh <= 15
  {
    Shr32(x, 16 - sh)
  }

  lemma ShlDigitValue(x: digit, y: digit, sh: nat)
    requires 1 <= sh <= 15
    ensures ShlDigit(x, y, sh) == x * Pow2(sh) - FallsOut(x, sh) * 0x1_0000 + FallsOut(y, sh)
    ensures FallsOut(0, sh) == 0
  {
    ShlParts(x, y, sh);
    ZeroOver(Pow2(16 - sh));
    PartsUnfold(x, y, sh);
  }

  /** A digit-wise shift multiplies by 2^sh, less what falls out on the left. */
  lemma {:induction false} ShlValue(s: seq<digit>, t: seq<digit>, sh: nat)
    requires 1 <= sh <= 15 && s != [] && IsShl(s, t, sh)
    ensures Val(t) == Val(s) * Pow2(sh) - FallsOut(s[0], sh) * Pow(|s|)
  {
    hide Val, Pow, Pow2, ShlDigit, FallsOut;
    ShlDigitValue(s[0], DigitAfter(s, 0), sh);
    if |s| == 1 {
      OneDigit(s);
      OneDigit(t);
      HeadIsShl(s, t, sh);
      SameProducts(Val(s), s[0], Pow2(sh));
      SameProducts(Pow(|s|), 0x1_0000, FallsOut(s[0], sh));
    } else {
      TailIsShl(s, t, sh);
      ShlValue(s[1..], t[1..], sh);
      ShiftUnfold(s, t);
      ShiftedFront(s[0], Pow2(sh), FallsOut(s[0], sh), Pow(|s| - 1), FallsOut(s[1], sh), Val(s[1..]));
    }
  }

  lemma TailIsShl(s: seq<digit>, t: seq<digit>, sh: nat)
    requires 1 <= sh <= 15 && |s| > 1 && IsShl(s, t, sh)
    ensures IsShl(s[1..], t[1..], sh) && t[0] == ShlDigit(s[0], s[1], sh)
  {
    forall j | 0 <= j < |s| - 1
      ensures t[1..][j] == ShlDigit(s[1..][j], DigitAfter(s[1..], j), sh)
    {
      assert t[j + 1] == ShlDigit(s[j + 1], DigitAfter(s, j + 1), sh);
    }
  }

  lemma HeadIsShl(s: seq<digit>, t: seq<digit>, sh: nat)
    requires 1 <= sh <= 15 && |s| == 1 && IsShl(s, t, sh)
    ensures t[0] == ShlDigit(s[0], 0, sh)
  {
  }

  lemma SameProducts(a: int, b: int, k: int)
    requires a == b
    ensures a * k == b * k
  {
  }

  lemma OneDigit(s: seq<digit>)
    requires |s| == 1
    ensures Val(s) == s[0] && Pow(1) == 0x1_0000
  {
    assert Pow(0) == 1 && Val(s[1..]) == 0;
  }

  lemma ShiftUnfold(s: seq<digit>, t: seq<digit>)
    requires |s| == |t| > 1
    ensures Val(s) == s[0] * Pow(|s| - 1) + Val(s[1..])
    ensures Val(t) == t[0] * Pow(|s| - 1) + Val(t[1..])
    ensures Pow(|s|) == 0x1_0000 * Pow(|s| - 1)
  {
  }

  lemma ShiftedFront(x: digit, k: nat, out: nat, p: nat, over: nat, rest: nat)
    ensures (x * k - out * 0x1_0000 + over) * p + (rest * k - over * p)
            == (x * p + rest) * k - out * (0x1_0000 * p)
  {
    Distribute(x * k - out * 0x1_0000, over, p);
    Distribute(x * k, -(out * 0x1_0000), p);
    Distribute(x * p, rest, k);
    Associate(out, 0x1_0000, p);
    Associate(p, x, k);
  }

  lemma NothingFallsOut(s: seq<digit>, t: seq<digit>, sh: nat)
    requires 1 <= sh <= 15 && s != [] && IsShl(s, t, sh)
    requires Val(s) * Pow2(sh) < Pow(|s|)
    ensures Val(t) == Val(s) * Pow2(sh)
  {
    hide *;
    ShlValue(s, t, sh);
    NoOverflow(FallsOut(s[0], sh), Pow(|s|), Val(s) * Pow2(sh), Val(t));
  }

  lemma NoOverflow(over: nat, p: nat, x: nat, y: nat)
    requires y == x - over * p && x < p
    ensures y == x
  {
    if over > 0 {
      MulMono(1, over, p);
      assert false;
    }
  }

  /** shl: p[0..len] <<= sh in place; the digit to the right is still unshifted when it is read.
      Callers guarantee that nothing falls out on the left. */
  method Shl(p: array<digit>, pb: nat, len: nat, sh: nat)
    requires 1 <= sh <= 15 && pb + len < p.Length
    requires Val(p[pb..pb + len + 1]) * Pow2(sh) < Pow(len + 1)
    modifies p
    ensures p[..pb] == old(p[..pb]) && p[pb + len + 1..] == old(p[pb + len + 1..])
    ensures Val(p[pb..pb + len + 1]) == old(Val(p[pb..pb + len + 1])) * Pow2(sh)
  {
    hide Val, Pow, Pow2, ShlDigit;
    ghost var was := p[..];
    var i := 0;
    while i < len
      invariant 0 <= i <= len
      invariant p[..pb] == was[..pb] && p[pb + i..] == was[pb + i..]
      invariant forall x :: pb <= x < pb + i ==> p[x] == ShlDigit(was[x], was[x + 1], sh)
    {
      assert p[pb + i] == was[pb + i] && p[pb + i + 1] == was[pb + i + 1] by {
        assert p[pb + i..][0] == was[pb + i..][0] && p[pb + i..][1] == was[pb + i..][1];
      }
      p[pb + i] := ShlDigit(p[pb + i], p[pb + i + 1], sh);
      i := i + 1;
      assert p[pb + i..] == was[pb + i - 1..][1..] == was[pb + i..];
    }
    assert p[pb + i] == was[pb + i] by { assert p[pb + i..][0] == was[pb + i..][0]; }
    p[pb + i] := ShlDigit(p[pb + i], 0, sh);
    ghost var s, t := was[pb..pb + len + 1], p[pb..pb + len + 1];
    assert p[pb + len + 1..] == was[pb + len..][1..] == was[pb + len + 1..];
    NothingFallsOut(s, t, sh);
  }

  /** The un-normalising loop: u[0..n] >>= d in place from the right, then u[0] = 0. The number
      shifted is r * 2^d, so no bit that matters leaves on the right. */
  method Unshift(u: array<digit>, ub: nat, n: nat, d: nat, ghost r: nat)
    requires 1 <= d <= 15 && 1 <= n && ub + n < u.Length
    requires u[ub] == 0
    requires Val(u[ub..ub + n + 1]) == r * Pow2(d)
    modifies u
    ensures u[..ub + 1] == old(u[..ub + 1]) && u[ub + n + 1..] == old(u[ub + n + 1..])
    ensures Val(u[ub + 1..ub + n + 1]) == r
  {
    hide Val, Pow, Pow2, ShlDigit;
    ghost var was := u[..];
    var i := n;
    while i > 0
      invariant 0 <= i <= n
      invariant u[..ub + i + 1] == was[..ub + i + 1] && u[ub + n + 1..] == was[ub + n + 1..]
      invariant forall x :: ub + i < x <= ub + n ==> u[x] == ShlDigit(was[x - 1], was[x], 16 - d)
    {
      assert u[ub + i] == was[ub + i] && u[ub + i - 1] == was[ub + i - 1] by {
        assert u[..ub + i + 1][ub + i] == was[..ub + i + 1][ub + i];
        assert u[..ub + i + 1][ub + i - 1] == was[..ub + i + 1][ub + i - 1];
      }
      u[ub + i] := ShlDigit(u[ub + i - 1], u[ub + i], 16 - d);
      i := i - 1;
      assert u[..ub + i + 1] == was[..ub + i + 2][..ub + i + 1] == was[..ub + i + 1];
    }
    u[ub] := 0;
    assert was[ub] == 0 && u[..ub] == was[..ub + 1][..ub];
    UnshiftValue(was[ub..ub + n + 1], u[ub + 1..ub + n + 1], d, r);
  }

  /** Shifting right by d is shifting left by 16 - d and dropping the last digit. */
  lemma UnshiftValue(s: seq<digit>, t: seq<digit>, d: nat, r: nat)
    requires 1 <= d <= 15 && |s| == |t| + 1 && |t| >= 1 && s[0] == 0
    requires Val(s) == r * Pow2(d)
    requires forall j :: 0 <= j < |t| ==> t[j] == ShlDigit(s[j], s[j + 1], 16 - d)
    ensures Val(t) == r
  {
    hide Val, Pow, Pow2, ShlDigit, FallsOut;
    var last := ShlDigit(s[|t|], 0, 16 - d);
    var full := t + [last];
    assert IsShl(s, full, 16 - d);
    ShlValue(s, full, 16 - d);
    ShlDigitValue(0, 0, 16 - d);
    ValSnoc(t, last);
    SplitDigit(d);
    Regroup(r, Pow2(d), Pow2(16 - d), 0x1_0000);
    SameProducts(Val(s), r * Pow2(d), Pow2(16 - d));
    DropLast(Val(t), last, r, Val(s) * Pow2(16 - d));
  }

  lemma DropLast(t: nat, last: digit, r: nat, x: nat)
    requires x == r * 0x1_0000 && t * 0x1_0000 + last == x
    ensures t == r
  {
  }

  lemma ZeroOver(k: nat)
    requires k > 0
    ensures 0 / k == 0
  {
    UniqueQuotient(0, k, 0, 0);
  }
}
