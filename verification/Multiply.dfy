/** __lmulq and __muldi3: 64-bit multiplication from half-word products (Knuth vol. 2, section
    4.3.3), with carries recovered by comparing a wrapped sum with what was there before. */
module Multiply {
  import opened Words
  import opened Digits
  import opened Products

  /** prodh, prodl += x << 16, for the addition and the subtraction: the pair wraps modulo 2^64. */
  lemma AddUp(ph: word, pl: word, x: word)
    ensures var l := Add32(pl, LHUp(x));
            var h := Add32(ph, HHalf(x) + if l < pl then 1 else 0);
            Join(h, l) == U64(Join(ph, pl) + x * 0x1_0000)
  {
    ShiftParts(x);
    var y := LHUp(x);
    var l := Add32(pl, y);
    assert l < pl <==> pl + y >= 0x1_0000_0000;
    var c := if l < pl then 1 else 0;
    assert pl + y == l + c * 0x1_0000_0000;
    HighWord(ph + HHalf(x) + c, l);
  }

  lemma SubtractUp(ph: word, pl: word, x: word)
    ensures var l := Sub32(pl, LHUp(x));
            var h := Sub32(ph, HHalf(x) + if l > pl then 1 else 0);
            Join(h, l) == U64(Join(ph, pl) - x * 0x1_0000)
  {
    ShiftParts(x);
    var y := LHUp(x);
    var l := Sub32(pl, y);
    assert l > pl <==> pl < y;
    var c := if l > pl then 1 else 0;
    assert pl - y == l - c * 0x1_0000_0000;
    HighWord(ph - HHalf(x) - c, l);
  }

  lemma AddLow(ph: word, pl: word, x: word)
    ensures var l := Add32(pl, x);
            var h := if l < x then Add32(ph, 1) else ph;
            Join(h, l) == U64(Join(ph, pl) + x)
  {
    var l: int := Add32(pl, x);
    var h: int := ph;
    if l < x {
      assert (pl as int) + (x as int) == l + 0x1_0000_0000;
      HighWord(h + 1, Add32(pl, x));
    } else {
      assert (pl as int) + (x as int) == l;
      HighWord(h, Add32(pl, x));
      assert U32(h) == h;
    }
  }

  /** "l << N splits into high and low ints as HHALF(l) and LHUP(l)." */
  lemma ShiftParts(x: word)
    ensures x * 0x1_0000 == HHalf(x) * 0x1_0000_0000 + LHUp(x)
  {
    var h: int, l: int := HHalf(x), LHalf(x);
    assert x == h * 0x1_0000 + l;
    assert LHUp(x) == l * 0x1_0000;
  }

  lemma HighWord(h: int, l: word)
    ensures Join(U32(h), l) == U64(h * 0x1_0000_0000 + l)
  {
    var k := h / 0x1_0000_0000;
    assert h == k * 0x1_0000_0000 + U32(h);
    WrapAway(Join(U32(h), l), k);
  }

  lemma WrapAway(x: dword, k: int)
    ensures U64(x + k * 0x1_0000_0000_0000_0000) == x
  {
  }

  lemma WrapTwice(x: int, y: int)
    ensures U64(U64(x) + y) == U64(x + y)
    ensures U64(y + U64(x)) == U64(x + y)
  {
    var k := x / 0x1_0000_0000_0000_0000;
    assert x == U64(x) + k * 0x1_0000_0000_0000_0000;
    WrapShift(U64(x) + y, k);
  }

  lemma WrapShift(x: int, k: int)
    ensures U64(x + k * 0x1_0000_0000_0000_0000) == U64(x)
  {
    var j := x / 0x1_0000_0000_0000_0000;
    assert x == U64(x) + j * 0x1_0000_0000_0000_0000;
    WrapAway(U64(x), j + k);
  }

  /** Knuth's identity: u*v from high, the signed middle term and low. */
  lemma MiddleTerm(u1: int, u0: int, v1: int, v0: int, b: int)
    ensures (u1 * b + u0) * (v1 * b + v0)
            == u1 * v1 * b * b + (u1 * v1 + (u1 - u0) * (v0 - v1) + u0 * v0) * b + u0 * v0
  {
  }

  /** The middle term as the source holds it: a magnitude and a sign. */
  lemma SignedMiddle(u1: word, u0: word, v1: word, v0: word)
    ensures var udiff: int, vdiff: int := if u1 >= u0 then u1 - u0 else u0 - u1, if v0 >= v1 then v0 - v1 else v1 - v0;
            ((u1 as int) - (u0 as int)) * ((v0 as int) - (v1 as int))
            == if (u1 >= u0) == (v0 >= v1) then udiff * vdiff else 0 - udiff * vdiff
  {
  }

  lemma HalfProduct(x: nat, y: nat)
    requires x <= 0xFFFF && y <= 0xFFFF
    ensures Mul32(x, y) == x * y <= 0xFFFE_0001
  {
    MulMono(x, 0xFFFF, y);
  }

  method LMulQ(u: word, v: word) returns (prod: dword)
    ensures prod == u * v
  {
    hide *;
    var u1: word, u0: word, v1: word, v0: word := HHalf(u), LHalf(u), HHalf(v), LHalf(v);
    WordProduct(u, v);
    var low := Mul32(u0, v0);
    if u1 == 0 && v1 == 0 {
      SmallProduct(u, v);
      return low;
    }
    var udiff: word, vdiff: word, neg;
    if u1 >= u0 {
      udiff, neg := u1 - u0, false;
    } else {
      udiff, neg := u0 - u1, true;
    }
    if v0 >= v1 {
      vdiff := v0 - v1;
    } else {
      vdiff, neg := v1 - v0, !neg;
    }
    var mid := Mul32(udiff, vdiff);
    var high := Mul32(u1, v1);
    ghost var m: int := if neg then 0 - mid as int else mid;
    ProductFormula(u, v, udiff, vdiff, neg);

    var prodh, prodl := Add32(high, HHalf(high)), LHUp(high);
    FromZero(high, prodh, prodl);
    ghost var hi: int, lo: int := high, low;
    ghost var sum := hi * 0x1_0000_0000 + hi * 0x1_0000;
    var was := prodl;
    if neg {
      SubtractUp(prodh, prodl, mid);
      prodl := Sub32(prodl, LHUp(mid));
      prodh := Sub32(prodh, HHalf(mid) + if prodl > was then 1 else 0);
    } else {
      AddUp(prodh, prodl, mid);
      prodl := Add32(prodl, LHUp(mid));
      prodh := Add32(prodh, HHalf(mid) + if prodl < was then 1 else 0);
    }
    WrapTwice(sum, m * 0x1_0000);
    sum := sum + m * 0x1_0000;
    was := prodl;
    AddUp(prodh, prodl, low);
    prodl := Add32(prodl, LHUp(low));
    prodh := Add32(prodh, HHalf(low) + if prodl < was then 1 else 0);
    WrapTwice(sum, lo * 0x1_0000);
    sum := sum + lo * 0x1_0000;
    AddLow(prodh, prodl, low);
    prodl := Add32(prodl, low);
    if prodl < low {
      prodh := Add32(prodh, 1);
    }
    WrapTwice(sum, low);
    prod := Join(prodh, prodl);
  }

  lemma SmallProduct(u: word, v: word)
    requires HHalf(u) == 0 && HHalf(v) == 0
    ensures Mul32(LHalf(u), LHalf(v)) == u * v
  {
    SplitWord(u);
    SplitWord(v);
    HalfProduct(u, v);
  }

  lemma ProductFormula(u: word, v: word, udiff: word, vdiff: word, neg: bool)
    requires udiff == if HHalf(u) >= LHalf(u) then HHalf(u) - LHalf(u) else LHalf(u) - HHalf(u)
    requires vdiff == if LHalf(v) >= HHalf(v) then LHalf(v) - HHalf(v) else HHalf(v) - LHalf(v)
    requires neg <==> (HHalf(u) >= LHalf(u)) != (LHalf(v) >= HHalf(v))
    ensures var high, mid, low: int := Mul32(HHalf(u), HHalf(v)), Mul32(udiff, vdiff), Mul32(LHalf(u), LHalf(v));
            u * v == high * 0x1_0000_0000 + high * 0x1_0000
                     + (if neg then 0 - mid as int else mid) * 0x1_0000 + low * 0x1_0000 + low
  {
    hide *;
    var u1: int, u0: int, v1: int, v0: int := HHalf(u), LHalf(u), HHalf(v), LHalf(v);
    HalfProduct(u0, v0);
    HalfProduct(u1, v1);
    HalfProduct(udiff, vdiff);
    SplitWord(u);
    SplitWord(v);
    SignedMiddle(u1, u0, v1, v0);
    MiddleTerm(u1, u0, v1, v0, 0x1_0000);
    SameProduct(u, u1 * 0x1_0000 + u0, v, v1 * 0x1_0000 + v0);
  }

  lemma SplitWord(x: word)
    ensures x == HHalf(x) * 0x1_0000 + LHalf(x)
  {
    ShiftParts(x);
  }

  lemma FromZero(high: word, h: word, l: word)
    requires h == Add32(high, HHalf(high)) && l == LHUp(high)
    ensures Join(h, l) == U64(high * 0x1_0000_0000 + high * 0x1_0000)
  {
    hide *;
    AddUp(high, 0, high);
    ZeroBelow(high);
  }

  lemma ZeroBelow(high: word)
    ensures Add32(0, LHUp(high)) == LHUp(high) && Join(high, 0) == high * 0x1_0000_0000
  {
    hide LHUp;
  }

  lemma WordProduct(u: word, v: word)
    ensures 0 <= u * v < 0x1_0000_0000_0000_0000 && U64(u * v) == u * v
  {
    MulMono(u, 0xFFFF_FFFF, v);
  }

  /** The two's-complement product of two long longs. */
  function MulWrapped(a: sdword, b: sdword): sdword {
    ToSigned(U64(a * b))
  }

  method MulDI3(a: sdword, b: sdword) returns (r: sdword)
    ensures r == MulWrapped(a, b)
  {
    hide *;
    var u: dword, v: dword, negall;
    if a >= 0 {
      u, negall := Bits(a), false;
    } else {
      u, negall := Neg64(Bits(a)), true;
    }
    if b >= 0 {
      v := Bits(b);
    } else {
      v, negall := Neg64(Bits(b)), !negall;
    }
    var prod: dword;
    var u1, u0, v1, v0 := Hi(u), Lo(u), Hi(v), Lo(v);
    if u1 == 0 && v1 == 0 {
      prod := LMulQ(u0, v0);
      LowWordsOnly(u, v);
    } else {
      var low := LMulQ(u0, v0);
      var negmid, udiff: word, vdiff: word;
      if u1 >= u0 {
        negmid, udiff := false, u1 - u0;
      } else {
        negmid, udiff := true, u0 - u1;
      }
      if v0 >= v1 {
        vdiff := v0 - v1;
      } else {
        vdiff, negmid := v1 - v0, !negmid;
      }
      var mid := Mul32(udiff, vdiff);
      var high := Mul32(u1, v1);
      HighOfProduct(u, v, low, udiff, vdiff, negmid);
      prod := Join(Add32(Add32(Add32(high, if negmid then Sub32(0, mid) else mid), Lo(low)), Hi(low)), Lo(low));
    }
    SignOfProduct(a, b, prod);
    r := ToSigned(if negall then Neg64(prod) else prod);
  }

  lemma LowWordsOnly(u: dword, v: dword)
    requires Hi(u) == 0 && Hi(v) == 0
    ensures Lo(u) * Lo(v) == U64(u * v)
  {
    WordProduct(Lo(u), Lo(v));
  }

  lemma JoinParts(x: dword)
    ensures x == Hi(x) * 0x1_0000_0000 + Lo(x)
  {
  }

  lemma HighOfProduct(u: dword, v: dword, low: dword, udiff: word, vdiff: word, neg: bool)
    requires low == Lo(u) * Lo(v)
    requires udiff == if Hi(u) >= Lo(u) then Hi(u) - Lo(u) else Lo(u) - Hi(u)
    requires vdiff == if Lo(v) >= Hi(v) then Lo(v) - Hi(v) else Hi(v) - Lo(v)
    requires neg <==> (Hi(u) >= Lo(u)) != (Lo(v) >= Hi(v))
    ensures var high, mid := Mul32(Hi(u), Hi(v)), Mul32(udiff, vdiff);
            Join(Add32(Add32(Add32(high, if neg then Sub32(0, mid) else mid), Lo(low)), Hi(low)), Lo(low))
            == U64(u * v)
  {
    hide *;
    var u1: int, u0: int, v1: int, v0: int := Hi(u), Lo(u), Hi(v), Lo(v);
    var l: int, lh: int := Lo(low), Hi(low);
    var p: int, h: int := udiff * vdiff, u1 * v1;
    var m := if neg then 0 - p else p;
    SignedMiddle(Hi(u), Lo(u), Hi(v), Lo(v));
    JoinParts(u);
    JoinParts(v);
    JoinParts(low);
    Mul32Is(Hi(u), Hi(v));
    Mul32Is(udiff, vdiff);
    SumWraps(h, p, neg, Lo(low), Hi(low));
    HighWord(h + m + l + lh, Lo(low));
    WrapShift((h + m + l + lh) * 0x1_0000_0000 + l, h + lh);
    Assemble(u1, u0, v1, v0, h, m, l, lh, low);
    SameProduct(u, u1 * 0x1_0000_0000 + u0, v, v1 * 0x1_0000_0000 + v0);
  }

  lemma SameProduct(a: int, a': int, b: int, b': int)
    requires a == a' && b == b'
    ensures a * b == a' * b'
  {
  }

  lemma Mul32Is(x: word, y: word)
    ensures Mul32(x, y) == U32((x as int) * (y as int))
  {
  }

  lemma Wrap32(x: int, y: int)
    ensures U32(U32(x) + y) == U32(x + y) && U32(y + U32(x)) == U32(x + y)
  {
    var k := x / 0x1_0000_0000;
    assert x == U32(x) + k * 0x1_0000_0000;
    Shift32(U32(x) + y, k);
  }

  lemma Shift32(x: int, k: int)
    ensures U32(x + k * 0x1_0000_0000) == U32(x)
  {
    var j := x / 0x1_0000_0000;
    assert x == U32(x) + j * 0x1_0000_0000;
    Away32(U32(x), j + k);
  }

  lemma Away32(x: word, k: int)
    ensures U32(x + k * 0x1_0000_0000) == x
  {
  }

  lemma SumWraps(x: int, p: int, neg: bool, l: word, h: word)
    ensures Add32(Add32(Add32(U32(x), if neg then Sub32(0, U32(p)) else U32(p)), l), h)
            == U32(x + (if neg then 0 - p else p) + (l as int) + (h as int))
  {
    var y := if neg then 0 - p else p;
    Minus32(p);
    Wrap32(x, U32(y));
    Wrap32(y, x);
    Wrap32(x + y, l);
    Wrap32(x + y + (l as int), h);
  }

  lemma Minus32(p: int)
    ensures Sub32(0, U32(p)) == U32(0 - p)
  {
    var k := p / 0x1_0000_0000;
    assert p == U32(p) + k * 0x1_0000_0000;
    Shift32(0 - p, k);
  }

  lemma Assemble(u1: int, u0: int, v1: int, v0: int, high: int, middle: int, l: int, h: int, low: int)
    requires high == u1 * v1 && middle == (u1 - u0) * (v0 - v1) && low == u0 * v0
    requires low == h * 0x1_0000_0000 + l
    ensures (u1 * 0x1_0000_0000 + u0) * (v1 * 0x1_0000_0000 + v0)
            == (high + middle + l + h) * 0x1_0000_0000 + l + (high + h) * 0x1_0000_0000_0000_0000
  {
    MiddleTerm(u1, u0, v1, v0, 0x1_0000_0000);
  }

  /** The magnitude the source works on; right for the most negative number too. */
  lemma Magnitude(a: sdword)
    ensures a >= 0 ==> Bits(a) == a
    ensures a < 0 ==> Neg64(Bits(a)) == 0 - a as int
  {
  }

  lemma SignOfProduct(a: sdword, b: sdword, prod: dword)
    requires prod == U64((if a >= 0 then Bits(a) else Neg64(Bits(a))) * (if b >= 0 then Bits(b) else Neg64(Bits(b))))
    ensures ToSigned(if (a >= 0) != (b >= 0) then Neg64(prod) else prod) == MulWrapped(a, b)
  {
    Magnitude(a);
    Magnitude(b);
    var x: int, y: int := a, b;
    var u, v := if x >= 0 then x else -x, if y >= 0 then y else -y;
    assert x * y == if (x >= 0) != (y >= 0) then -(u * v) else u * v;
    var k := (u * v) / 0x1_0000_0000_0000_0000;
    assert u * v == prod + k * 0x1_0000_0000_0000_0000;
    var p: int := prod;
    WrapShift(-p, -k);
  }
}
