/** __qdivrem: 64-bit unsigned division by Algorithm D of Knuth vol. 2, section 4.3.1,
    on arrays of half-words changed in place. */
module QDivRem {
  import opened Words
  import opened Digits
  import opened Products
  import opened Shifts

  // ----- D3: the trial digit

  /** The D3 block. `uj0 == v1' jumps into the middle of the loop, with qhat one too big for a
      digit; `tries' counts the passes through qhat_too_big. */
  method TrialDigit(uj0: digit, uj1: digit, uj2: digit, v1: digit, v2: digit)
    returns (qhat: word, ghost tries: nat)
    requires 0x8000 <= v1 && uj0 <= v1
    ensures qhat < 0x1_0000
    ensures IsTrialDigit(qhat, Three(uj0, uj1, uj2), Two(v1, v2))
    ensures tries <= 2
  {
    hide Exceeds, IsRest, IsTrialDigit, Mul32, Div32, Mod32, Combine;
    ghost var u2: nat := uj0 * 0x1_0000 + uj1;
    ghost var u3: nat := u2 * 0x1_0000 + uj2;
    ghost var vv: nat := v1 * 0x1_0000 + v2;
    var rhat: word;
    var tooBig: bool;
    tries := 0;
    if uj0 == v1 {
      qhat, rhat, tooBig := 0x1_0000, uj1, true;
      StartAtBase(u2, v1);
    } else {
      FirstQuotient(uj0, uj1, uj2, v1, v2);
      var nn := Combine(uj0, uj1);
      qhat, rhat := Div32(nn, v1), Mod32(nn, v1);
      tooBig := Mul32(v2, qhat) > Combine(rhat, uj2);
      TestMeansTooBig(u2, v1, v2, uj2, qhat, rhat);
    }
    while tooBig
      invariant 0 <= qhat <= 0x1_0000 && (tooBig || qhat < 0x1_0000)
      invariant IsRest(rhat, u2, qhat, v1)
      invariant tooBig ==> rhat < 0x1_0000 && (qhat == 0x1_0000 || Exceeds(qhat, u3, vv))
      invariant !tooBig ==> IsTrialDigit(qhat, u3, vv)
      invariant tooBig ==> tries == 0 || (tries == 1 && rhat >= v1)
      invariant tries <= 2
      decreases qhat
    {
      OneLess(u2, u3, vv, v1, qhat, rhat);
      ghost var was := qhat;
      qhat, rhat, tries := qhat - 1, rhat + v1, tries + 1;
      if rhat >= 0x1_0000 {
        LargeRemainder(u2, v1, v2, uj2, qhat, rhat);
        Settled(qhat, u3, vv);
        tooBig := false;
      } else {
        tooBig := Mul32(v2, qhat) > Combine(rhat, uj2);
        TestMeansTooBig(u2, v1, v2, uj2, qhat, rhat);
        if !tooBig {
          Settled(qhat, u3, vv);
        }
      }
    }
  }

  /** The numbers two and three digits make. */
  function Two(a: int, b: int): int {
    a * 0x1_0000 + b
  }

  function Three(a: int, b: int, c: int): int {
    (a * 0x1_0000 + b) * 0x1_0000 + c
  }

  /** qhat is the greatest digit with qhat*v <= u. */
  predicate IsTrialDigit(qhat: int, u: int, v: int) {
    && qhat * v <= u
    && (qhat == 0xFFFF || u < (qhat + 1) * v)
  }

  predicate Exceeds(q: int, u: int, v: int) {
    q * v > u
  }

  predicate IsRest(r: int, u: int, q: int, v: int) {
    r == u - q * v
  }

  lemma StartAtBase(u2: nat, v1: digit)
    requires u2 - v1 * 0x1_0000 >= 0
    ensures IsRest(u2 - v1 * 0x1_0000, u2, 0x1_0000, v1)
  {
  }

  lemma FirstQuotient(uj0: digit, uj1: digit, uj2: digit, v1: digit, v2: digit)
    requires 0 < v1 && uj0 < v1
    ensures Combine(uj0, uj1) == uj0 * 0x1_0000 + uj1
    ensures var nn, u3, vv := Combine(uj0, uj1), (uj0 * 0x1_0000 + uj1) * 0x1_0000 + uj2, v1 * 0x1_0000 + v2;
            && Div32(nn, v1) <= 0xFFFF && Mod32(nn, v1) < v1
            && IsRest(Mod32(nn, v1), nn, Div32(nn, v1), v1)
            && (!Exceeds(Div32(nn, v1), u3, vv) ==> IsTrialDigit(Div32(nn, v1), u3, vv))
  {
    var nn := uj0 * 0x1_0000 + uj1;
    var q := nn / v1;
    DivideOut(nn, v1, 0x1_0000);
    Distribute(q, 1, v1);
    Associate(q + 1, v1, 0x1_0000);
    Distribute(v1 * 0x1_0000, v2, q + 1);
    MulMono(0, v2, q + 1);
    assert Exceeds(q + 1, nn * 0x1_0000 + uj2, v1 * 0x1_0000 + v2);
  }

  lemma DivideOut(n: nat, d: nat, k: nat)
    requires d > 0 && n < d * k
    ensures n / d < k && n == (n / d) * d + n % d && n % d < d
  {
    if n / d >= k {
      MulMono(k, n / d, d);
      assert false;
    }
  }

  lemma OneLess(u2: nat, u3: nat, vv: nat, v1: nat, q: nat, r: nat)
    requires IsRest(r, u2, q, v1)
    requires q == 0x1_0000 || Exceeds(q, u3, vv)
    ensures q > 0 && IsRest(r + v1, u2, q - 1, v1)
    ensures q - 1 == 0xFFFF || Exceeds(q - 1 + 1, u3, vv)
  {
    Distribute(q, -1, v1);
  }

  lemma Settled(q: nat, u: nat, v: nat)
    requires !Exceeds(q, u, v) && (q == 0xFFFF || Exceeds(q + 1, u, v))
    ensures IsTrialDigit(q, u, v)
  {
  }

  /** The while test compares in wrapped 32-bit words; nothing wraps. */
  lemma TestMeansTooBig(u2: nat, v1: digit, v2: digit, uj2: digit, q: nat, r: nat)
    requires IsRest(r, u2, q, v1) && q <= 0xFFFF && r < 0x1_0000
    ensures Mul32(v2, q) > Combine(r, uj2) <==> Exceeds(q, u2 * 0x1_0000 + uj2, v1 * 0x1_0000 + v2)
  {
    MulMono(v2, 0xFFFF, q);
    Associate(q, v1, 0x1_0000);
    assert q * (v1 * 0x1_0000 + v2) == q * (v1 * 0x1_0000) + q * v2;
  }

  /** "Note that if rhat >= B, v[2]*qhat < rhat*B." */
  lemma LargeRemainder(u2: nat, v1: digit, v2: digit, uj2: digit, q: nat, r: nat)
    requires IsRest(r, u2, q, v1) && r >= 0x1_0000 && q <= 0xFFFF
    ensures !Exceeds(q, u2 * 0x1_0000 + uj2, v1 * 0x1_0000 + v2)
  {
    MulMono(v2, 0xFFFF, q);
    Associate(q, v1, 0x1_0000);
    assert q * (v1 * 0x1_0000 + v2) == q * (v1 * 0x1_0000) + q * v2;
  }

  /** Knuth's theorem on trial digits: judged by three digits of u and two of v, the digit is the
      true one or one too big. Here u = u3*p + ul and v = v2*p + vl. */
  lemma TrialDigitNearlyTrue(u3: nat, ul: nat, v2: nat, vl: nat, p: nat, qhat: nat)
    requires ul < p && vl < p && 0x1_0000 <= v2
    requires u3 * p + ul < 0x1_0000 * (v2 * p + vl)
    requires qhat <= 0xFFFF && IsTrialDigit(qhat, u3, v2)
    ensures var u, v := u3 * p + ul, v2 * p + vl;
            v > 0 && (qhat == u / v || qhat == u / v + 1)
  {
    NotBelow(u3, ul, v2, vl, p, qhat);
    NotFarAbove(u3, ul, v2, vl, p, qhat);
    MulMono(1, v2, p);
    DigitBetween(u3 * p + ul, v2 * p + vl, qhat);
  }

  lemma NotBelow(u3: nat, ul: nat, v2: nat, vl: nat, p: nat, qhat: nat)
    requires ul < p && qhat <= 0xFFFF && IsTrialDigit(qhat, u3, v2)
    requires u3 * p + ul < 0x1_0000 * (v2 * p + vl)
    ensures u3 * p + ul < (qhat + 1) * (v2 * p + vl)
  {
    if qhat != 0xFFFF {
      MulMono(u3 + 1, (qhat + 1) * v2, p);
      Associate(qhat + 1, v2, p);
      Distribute(u3, 1, p);
      Distribute(v2 * p, vl, qhat + 1);
      MulMono(0, vl, qhat + 1);
    }
  }

  lemma NotFarAbove(u3: nat, ul: nat, v2: nat, vl: nat, p: nat, qhat: nat)
    requires vl < p && qhat <= 0xFFFF && qhat * v2 <= u3 && 0x1_0000 <= v2
    ensures qhat * (v2 * p + vl) <= (u3 * p + ul) + (v2 * p + vl)
  {
    MulMono(qhat * v2, u3, p);
    Associate(qhat, v2, p);
    Distribute(v2 * p, vl, qhat);
    MulMono(qhat, 0xFFFF, vl);
    MulMono(0x1_0000, v2, p);
  }

  lemma DigitBetween(u: nat, v: nat, q: nat)
    requires v > 0 && u < (q + 1) * v && q * v <= u + v
    ensures q == u / v || q == u / v + 1
  {
    var t := u / v;
    assert t * v <= u < (t + 1) * v;
    if t > q {
      MulMono(q + 1, t, v);
      assert false;
    }
    if q > t + 1 {
      MulMono(t + 2, q, v);
      Distribute(t + 1, 1, v);
      assert false;
    }
  }

  // ----- D4 to D6: multiply and subtract, test, add back

  /** The digits `low' now hold what was there less q*v, with `t' borrowed from the digit above.
      Addition is q = -1, and a carry a negative borrow. */
  predicate Balance(low: seq<digit>, wasLow: seq<digit>, vlow: seq<digit>, q: int, t: int) {
    && |low| == |wasLow| == |vlow|
    && Val(low) == Val(wasLow) - q * Val(vlow) + t * Pow(|low|)
  }

  /** D4: u[0..n] -= qhat * v[1..n] (offsets ub, vb), borrows held in wrapped unsigned words.
      `borrowed' is HHALF(t) != 0 at the end: the true difference is negative and B^(n+1) more
      is stored. */
  method MultiplySubtract(u: array<digit>, ub: nat, v: array<digit>, vb: nat, n: nat, qhat: word)
    returns (borrowed: bool)
    requires u != v && ub + n < u.Length && vb + n < v.Length && qhat <= 0xFFFF
    modifies u
    ensures u[..ub] == old(u[..ub]) && u[ub + n + 1..] == old(u[ub + n + 1..])
    ensures Balance(u[ub..ub + n + 1], old(u[ub..ub + n + 1]), [0] + v[vb + 1..vb + n + 1],
                    qhat, if borrowed then 1 else 0)
  {
    hide *;
    ghost var was := u[..];
    var t: word, i := 0, n;
    ghost var low: seq<digit>, wasLow: seq<digit>, vlow: seq<digit> := [], [], [];
    EmptyBalance(qhat);
    while i > 0
      invariant 0 <= i <= n && t <= 0xFFFF
      invariant u[..ub + i + 1] == was[..ub + i + 1] && u[ub + n + 1..] == was[ub + n + 1..]
      invariant low == u[ub + i + 1..ub + n + 1] && wasLow == was[ub + i + 1..ub + n + 1]
      invariant vlow == v[vb + i + 1..vb + n + 1]
      invariant Balance(low, wasLow, vlow, qhat, t)
    {
      ghost var borrow, ui := t, was[ub + i];
      assert u[ub + i] == ui by { assert u[..ub + i + 1][ub + i] == was[..ub + i + 1][ub + i]; }
      BorrowOut(ui, v[vb + i], qhat, borrow);
      t := Sub32(Sub32(u[ub + i], Mul32(v[vb + i], qhat)), t);
      u[ub + i] := LHalf(t);
      t := NextBorrow(t);
      SubtractDigit(ui, v[vb + i], qhat, borrow, u[ub + i], t, low, wasLow, vlow);
      low, wasLow, vlow := [u[ub + i]] + low, [ui] + wasLow, [v[vb + i]] + vlow;
      assert low == u[ub + i..ub + n + 1];
      assert wasLow == was[ub + i..ub + n + 1];
      assert vlow == v[vb + i..vb + n + 1];
      i := i - 1;
      assert u[..ub + i + 1] == was[..ub + i + 1];
    }
    ghost var borrow, u0 := t, was[ub];
    assert u[ub] == u0 by { assert u[..ub + 1][ub] == was[..ub + 1][ub]; }
    t := Sub32(u[ub], t);
    u[ub] := LHalf(t);
    borrowed := HHalf(t) != 0;
    TopBorrow(u0, qhat, borrow);
    SubtractDigit(u0, 0, qhat, borrow, u[ub], if borrowed then 1 else 0, low, wasLow, vlow);
    assert u[ub..ub + n + 1] == [u[ub]] + low;
    assert was[ub..ub + n + 1] == [u0] + wasLow;
  }

  /** What one digit of the subtraction leaves: the digit x, and t2 to borrow from the next. */
  predicate IsBorrow(ui: int, vi: int, q: int, t: int, x: int, t2: int) {
    ui - vi * q - t == x - t2 * 0x1_0000
  }

  lemma EmptyBalance(q: int)
    ensures Balance([], [], [], q, 0)
  {
  }

  /** One digit of D4: the wrapped word splits into the digit stored and the borrow carried on. */
  lemma BorrowOut(ui: digit, vi: digit, q: nat, t: nat)
    requires q <= 0xFFFF && t <= 0xFFFF
    ensures var w := Sub32(Sub32(ui, Mul32(vi, q)), t);
            IsBorrow(ui, vi, q, t, LHalf(w), NextBorrow(w))
  {
    MulMono(vi, 0xFFFF, q);
    WrappedBorrow(ui, vi * q, t);
  }

  lemma WrappedBorrow(ui: digit, p: nat, t: nat)
    requires p <= 0xFFFE_0001 && t <= 0xFFFF
    ensures var w := Sub32(Sub32(ui, U32(p)), t);
            ui - p - t == LHalf(w) - NextBorrow(w) * 0x1_0000
  {
    hide *;
    TwoWraps(ui, p, t);
    if ui - p - t < 0 {
      Wrapped(ui - p - t);
    } else {
      NotWrapped(ui - p - t);
    }
  }

  lemma TwoWraps(x: word, p: word, t: word)
    ensures Sub32(Sub32(x, U32(p)), t) == U32(x - p - t)
  {
  }

  lemma Wrapped(e: int)
    requires -0xFFFF_0000 <= e < 0
    ensures e == LHalf(U32(e)) - NextBorrow(U32(e)) * 0x1_0000
  {
    var w := U32(e);
    assert w == e + 0x1_0000_0000;
    HalvesOf(w);
  }

  lemma NotWrapped(e: int)
    requires 0 <= e <= 0xFFFF
    ensures e == LHalf(U32(e)) - NextBorrow(U32(e)) * 0x1_0000
  {
  }

  lemma HalvesOf(w: word)
    ensures w == HHalf(w) * 0x1_0000 + LHalf(w)
  {
  }

  /** t = (B - HHALF(t)) & (B - 1) */
  function NextBorrow(t: word): digit {
    (0x1_0000 - HHalf(t)) % 0x1_0000
  }

  lemma TopBorrow(u0: digit, q: nat, t: nat)
    requires t <= 0xFFFF
    ensures var w := Sub32(u0, t);
            IsBorrow(u0, 0, q, t, LHalf(w), if HHalf(w) != 0 then 1 else 0)
  {
  }

  lemma SubtractDigit(ui: digit, vi: digit, q: int, t: int, x: digit, t2: int,
                      low: seq<digit>, wasLow: seq<digit>, vlow: seq<digit>)
    requires Balance(low, wasLow, vlow, q, t) && IsBorrow(ui, vi, q, t, x, t2)
    ensures Balance([x] + low, [ui] + wasLow, [vi] + vlow, q, t2)
  {
    var p := Pow(|low|);
    ValCons(x, low);
    ValCons(ui, wasLow);
    ValCons(vi, vlow);
    SubtractInts(ui, vi, q, t, x, t2, p);
    assert Val(wasLow) - q * Val(vlow) + t * p == Val(low);
    SubtractSum(ui, vi, q, t, x, t2, p, Val(low), Val(wasLow), Val(vlow));
  }

  lemma SubtractSum(ui: int, vi: int, q: int, t: int, x: int, t2: int, p: int, l: int, wl: int, vl: int)
    requires x * p == ui * p - q * (vi * p) - t * p + t2 * (0x1_0000 * p)
    requires l == wl - q * vl + t * p
    ensures x * p + l == (ui * p + wl) - q * (vi * p + vl) + t2 * (0x1_0000 * p)
  {
    Distribute(vi * p, vl, q);
  }

  lemma SubtractInts(ui: int, vi: int, q: int, t: int, x: int, t2: int, p: int)
    requires ui - vi * q - t == x - t2 * 0x1_0000
    ensures x * p == ui * p - q * (vi * p) - t * p + t2 * (0x1_0000 * p)
  {
    calc {
      x * p;
      (ui + -(vi * q) + -t + t2 * 0x1_0000) * p;
      { Distribute(ui + -(vi * q) + -t, t2 * 0x1_0000, p); Distribute(ui + -(vi * q), -t, p);
        Distribute(ui, -(vi * q), p); }
      ui * p + -(vi * q) * p + -t * p + t2 * 0x1_0000 * p;
      { Associate(-q, vi, p); Associate(t2, 0x1_0000, p); }
      ui * p - q * (vi * p) - t * p + t2 * (0x1_0000 * p);
    }
  }

  /** D6: u[0..n] += v[1..n]; the carry out of the top digit is dropped. */
  method AddBack(u: array<digit>, ub: nat, v: array<digit>, vb: nat, n: nat)
    returns (ghost carry: int)
    requires u != v && ub + n < u.Length && vb + n < v.Length
    modifies u
    ensures u[..ub] == old(u[..ub]) && u[ub + n + 1..] == old(u[ub + n + 1..])
    ensures 0 <= carry <= 1
    ensures Balance(u[ub..ub + n + 1], old(u[ub..ub + n + 1]), [0] + v[vb + 1..vb + n + 1], -1, -carry)
  {
    hide *;
    ghost var was := u[..];
    var t: word, i := 0, n;
    ghost var low: seq<digit>, wasLow: seq<digit>, vlow: seq<digit> := [], [], [];
    carry := 0;
    EmptyBalance(-1);
    while i > 0
      invariant 0 <= i <= n && t <= 1 && carry == t
      invariant u[..ub + i + 1] == was[..ub + i + 1] && u[ub + n + 1..] == was[ub + n + 1..]
      invariant low == u[ub + i + 1..ub + n + 1] && wasLow == was[ub + i + 1..ub + n + 1]
      invariant vlow == v[vb + i + 1..vb + n + 1]
      invariant Balance(low, wasLow, vlow, -1, -carry)
    {
      ghost var ui := was[ub + i];
      assert u[ub + i] == ui by { assert u[..ub + i + 1][ub + i] == was[..ub + i + 1][ub + i]; }
      CarryOut(ui, v[vb + i], t);
      t := Add32(t, Add32(u[ub + i], v[vb + i]));
      u[ub + i] := LHalf(t);
      t := HHalf(t);
      SubtractDigit(ui, v[vb + i], -1, -carry, u[ub + i], -(t as int), low, wasLow, vlow);
      carry := t;
      low, wasLow, vlow := [u[ub + i]] + low, [ui] + wasLow, [v[vb + i]] + vlow;
      assert low == u[ub + i..ub + n + 1];
      assert wasLow == was[ub + i..ub + n + 1];
      assert vlow == v[vb + i..vb + n + 1];
      i := i - 1;
      assert u[..ub + i + 1] == was[..ub + i + 1];
    }
    ghost var u0 := was[ub];
    assert u[ub] == u0 by { assert u[..ub + 1][ub] == was[..ub + 1][ub]; }
    CarryOut(u0, 0, t);
    ghost var carryOut := HHalf(Add32(u[ub], t));
    u[ub] := LHalf(Add32(u[ub], t));
    SubtractDigit(u0, 0, -1, -carry, u[ub], -(carryOut as int), low, wasLow, vlow);
    carry := carryOut;
    assert u[ub..ub + n + 1] == [u[ub]] + low;
    assert was[ub..ub + n + 1] == [u0] + wasLow;
  }

  lemma CarryOut(ui: digit, vi: digit, t: word)
    requires t <= 1
    ensures var w := Add32(t, Add32(ui, vi));
            HHalf(w) <= 1 && IsBorrow(ui, vi, -1, -(t as int), LHalf(w), -(HHalf(w) as int))
    ensures vi == 0 ==> Add32(t, Add32(ui, vi)) == Add32(ui, t)
  {
  }

  // ----- D3 to D6 together: one quotient digit

  /** The top digits of the window u[0..n] and of the divisor v[1..n], taken apart. */
  lemma TopThree(w: seq<digit>)
    requires |w| >= 3
    ensures Val(w) == Three(w[0], w[1], w[2]) * Pow(|w| - 3) + Val(w[3..])
    ensures Val(w[3..]) < Pow(|w| - 3)
  {
    hide Val, Pow;
    assert w == w[..3] + w[3..];
    ValSplit(w[..3], w[3..]);
    assert w[..3] == w[..2] + [w[2]] && w[..2] == [w[0]] + [w[1]];
    ValSnoc(w[..2], w[2]);
    ValSnoc([w[0]], w[1]);
    OneDigit([w[0]]);
    ValBound(w[3..]);
    SameProducts(Val(w[..3]), Three(w[0], w[1], w[2]), Pow(|w| - 3));
  }

  lemma TopTwo(d: seq<digit>)
    requires |d| >= 2
    ensures Val(d) == Two(d[0], d[1]) * Pow(|d| - 2) + Val(d[2..])
    ensures Val(d[2..]) < Pow(|d| - 2)
  {
    hide Val, Pow;
    assert d == d[..2] + d[2..] && d[..2] == [d[0]] + [d[1]];
    ValSplit(d[..2], d[2..]);
    ValSnoc([d[0]], d[1]);
    OneDigit([d[0]]);
    ValBound(d[2..]);
    SameProducts(Val(d[..2]), Two(d[0], d[1]), Pow(|d| - 2));
  }

  /** While the partial remainder is below the divisor, its top digit is at most the divisor's. */
  lemma TopDigitFits(w: seq<digit>, d: seq<digit>)
    requires |d| >= 2 && |w| == |d| + 1
    requires Val(w) < 0x1_0000 * Val(d)
    ensures w[0] <= d[0]
  {
    ValCons(w[0], w[1..]);
    ValCons(d[0], d[1..]);
    assert [w[0]] + w[1..] == w && [d[0]] + d[1..] == d;
    ValBound(d[1..]);
    TopBelow(w[0], d[0], Pow(|d| - 1), Val(d), Val(w));
    assert Pow(|d|) == 0x1_0000 * Pow(|d| - 1);
  }

  lemma TopBelow(w0: digit, d0: digit, p: nat, d: nat, w: nat)
    requires p > 0 && d < d0 * p + p && w < 0x1_0000 * d
    ensures w >= w0 * (0x1_0000 * p) ==> w0 <= d0
  {
    if w0 > d0 {
      MulMono(d0 + 1, w0, 0x1_0000 * p);
      Distribute(d0, 1, 0x1_0000 * p);
      Regroup(d0, p, 0x1_0000, 0x1_0000 * p);
    }
  }

  /** D5: the subtraction borrows exactly when qhat is one too big, and then one add-back whose
      carry cancels the borrow restores the true remainder. Here uw, u1, u2 are the window before
      D4, after D4 and after D6, all below top = B^(n+1). */
  lemma TestIsExact(uw: nat, v: nat, qhat: nat, top: nat, u1: nat, borrowed: bool)
    requires v > 0 && (qhat == uw / v || qhat == uw / v + 1)
    requires u1 == uw - qhat * v + if borrowed then top else 0
    requires u1 < top && v <= top
    ensures borrowed <==> qhat == uw / v + 1
    ensures !borrowed ==> u1 == uw % v
    ensures borrowed ==> u1 + v == uw % v + top
  {
    var q := uw / v;
    assert uw == q * v + uw % v;
    Distribute(q, 1, v);
  }

  lemma CarryCancels(u1: nat, v: nat, r: nat, top: nat, u2: nat, carry: int)
    requires u1 + v == r + top && r < top && 0 <= carry <= 1
    requires u2 == u1 + v - carry * top && u2 < top
    ensures u2 == r
  {
  }

  predicate IsQuotRem(x: nat, d: nat, q: nat, r: nat) {
    d > 0 && q == x / d && r == x % d
  }

  /** One pass of D3-D6 at u[ub..ub+n]. */
  method DivideDigit(u: array<digit>, ub: nat, v: array<digit>, vb: nat, n: nat)
    returns (qhat: digit)
    requires u != v && n >= 2 && ub + n < u.Length && vb + n < v.Length
    requires v[vb + 1] >= 0x8000
    requires Val(u[ub..ub + n + 1]) < 0x1_0000 * Val(v[vb + 1..vb + n + 1])
    modifies u
    ensures u[..ub] == old(u[..ub]) && u[ub + n + 1..] == old(u[ub + n + 1..])
    ensures Val(v[vb + 1..vb + n + 1]) > 0
    ensures IsQuotRem(old(Val(u[ub..ub + n + 1])), Val(v[vb + 1..vb + n + 1]), qhat, Val(u[ub..ub + n + 1]))
  {
    hide *;
    ghost var w, d := u[ub..ub + n + 1], v[vb + 1..vb + n + 1];
    TopDigitFits(w, d);
    var q, _ := TrialDigit(u[ub], u[ub + 1], u[ub + 2], v[vb + 1], v[vb + 2]);
    ghost var r, extra := TrialIsNearlyTrue(w, d, q);
    var borrowed := MultiplySubtract(u, ub, v, vb, n, q);
    ghost var w1 := u[ub..ub + n + 1];
    AfterSubtract(w, d, w1, q, borrowed, r, extra);
    if borrowed {
      q := q - 1;
      ghost var carry := AddBack(u, ub, v, vb, n);
      AfterAddBack(d, w1, u[ub..ub + n + 1], r, carry);
    }
    qhat := q;
  }

  lemma TrialIsNearlyTrue(w: seq<digit>, d: seq<digit>, q: word) returns (r: nat, extra: nat)
    requires |d| >= 2 && |w| == |d| + 1 && d[0] >= 0x8000
    requires Val(w) < 0x1_0000 * Val(d) && q <= 0xFFFF
    requires IsTrialDigit(q, Three(w[0], w[1], w[2]), Two(d[0], d[1]))
    ensures extra <= 1 && Val(d) > 0 && q >= extra
    ensures IsQuotRem(Val(w), Val(d), q - extra, r) && r < Val(d)
  {
    hide *;
    TopThree(w);
    TopTwo(d);
    TopsAreNat(w, d);
    TrialDigitNearlyTrue(Three(w[0], w[1], w[2]), Val(w[3..]), Two(d[0], d[1]), Val(d[2..]), Pow(|d| - 2), q);
    r, extra := QuotientOrMore(Val(w), Val(d), q);
  }

  lemma TopsAreNat(w: seq<digit>, d: seq<digit>)
    requires |d| >= 2 && |w| >= 3 && d[0] >= 1
    ensures Three(w[0], w[1], w[2]) >= 0 && Two(d[0], d[1]) >= 0x1_0000
  {
  }

  lemma QuotientOrMore(u: nat, v: nat, q: nat) returns (r: nat, extra: nat)
    requires v > 0 && (q == u / v || q == u / v + 1)
    ensures extra <= 1 && q >= extra && IsQuotRem(u, v, q - extra, r) && r < v
  {
    QuotientBelow(u, v);
    r, extra := u % v, q - u / v;
  }

  lemma AfterSubtract(w: seq<digit>, d: seq<digit>, w1: seq<digit>, q: nat, borrowed: bool, r: nat, extra: nat)
    requires |w| == |w1| == |d| + 1 && r < Val(d) && extra <= 1 && extra <= q
    requires IsQuotRem(Val(w), Val(d), q - extra, r)
    requires Balance(w1, w, [0] + d, q, if borrowed then 1 else 0)
    ensures borrowed <==> extra == 1
    ensures !borrowed ==> Val(w1) == r
    ensures borrowed ==> Val(w1) + Val(d) == r + Pow(|w|)
  {
    ValOfZero(d);
    ValBound(w1);
    ValBound([0] + d);
    UnfoldBalance(w1, w, [0] + d, q, if borrowed then 1 else 0);
    hide Val, Pow, Balance;
    SameProducts(Val([0] + d), Val(d), q);
    TestIsExact(Val(w), Val(d), q, Pow(|w|), Val(w1), borrowed);
  }

  lemma UnfoldBalance(low: seq<digit>, wasLow: seq<digit>, vlow: seq<digit>, q: int, t: int)
    requires Balance(low, wasLow, vlow, q, t)
    ensures Val(low) == Val(wasLow) - q * Val(vlow) + t * Pow(|low|)
  {
  }

  lemma ValOfZero(d: seq<digit>)
    ensures Val([0] + d) == Val(d)
  {
    ValCons(0, d);
  }

  lemma AfterAddBack(d: seq<digit>, w1: seq<digit>, w2: seq<digit>, r: nat, carry: int)
    requires |w1| == |w2| == |d| + 1 && r < Val(d) && 0 <= carry <= 1
    requires Val(w1) + Val(d) == r + Pow(|w1|)
    requires Balance(w2, w1, [0] + d, -1, -carry)
    ensures Val(w2) == r
  {
    ValOfZero(d);
    ValBound(w2);
    ValBound([0] + d);
    UnfoldBalance(w2, w1, [0] + d, -1, -carry);
    hide Val, Pow, Balance;
    CarryCancels(Val(w1), Val(d), r, Pow(|w1|), Val(w2), carry);
  }

  // ----- D2 to D7: the loop over j

  /** The loop invariant: digits produced and digits left account for the whole dividend. */
  predicate Divided(total: nat, v: nat, quot: seq<digit>, left: nat, rest: seq<digit>) {
    total == Val(rest) + Val(quot) * v * Pow(left)
  }

  /** Here `k' is the array position of u[j] (u points at uspace[ub]) and k + n that of q[j];
      everything in front of u and q is zero, and all three numbers end where their arrays do. */
  method DigitLoop(u: array<digit>, ub: nat, v: array<digit>, n: nat, q: array<digit>)
    requires u != v && u != q && v != q && u.Length == v.Length == q.Length
    requires n >= 2 && ub + n < u.Length
    requires v[v.Length - n] >= 0x8000
    requires forall i :: 0 <= i < ub ==> u[i] == 0
    requires forall i :: 0 <= i < ub + n ==> q[i] == 0
    requires Val(u[ub..ub + n]) < Val(v[v.Length - n..])
    modifies u, q
    ensures IsQuotRem(old(Val(u[..])), Val(v[v.Length - n..]), Val(q[..]), Val(u[..]))
    ensures forall i :: 0 <= i < u.Length - n ==> u[i] == 0
  {
    hide *;
    ghost var d, total := Val(v[v.Length - n..]), Val(u[..]);
    var k := ub;
    NothingDivided(total, d, u.Length - n - k, q[..k + n], u[..]);
    while k < u.Length - n
      invariant ub <= k <= u.Length - n
      invariant forall i :: 0 <= i < k ==> u[i] == 0
      invariant Val(u[k..k + n]) < d
      invariant Divided(total, d, q[..k + n], u.Length - n - k, u[..])
    {
      ghost var before, w, after := u[..k], u[k..k + n + 1], u[k + n + 1..];
      ghost var quot := q[..k + n];
      NextWindow(u[k..k + n], u[k + n], d);
      assert w == u[k..k + n] + [u[k + n]];
      assert u[..] == before + w + after;
      assert v[v.Length - n - 1 + 1..v.Length - n - 1 + n + 1] == v[v.Length - n..];
      var digit := DivideDigit(u, k, v, v.Length - n - 1, n);
      q[k + n] := digit;
      ghost var w' := u[k..k + n + 1];
      assert u[..] == u[..k] + w' + u[k + n + 1..] == before + w' + after;
      assert q[..k + n + 1] == quot + [digit];
      OneMoreDigit(total, d, quot, digit, u.Length - n - k - 1, before, w, w', after);
      RemainderFits(w, w', digit, v[v.Length - n..]);
      forall i | 0 <= i < k + 1
        ensures u[i] == 0
      {
        assert i < k ==> u[i] == u[..k][i] == before[i];
        assert i == k ==> u[i] == w'[0];
      }
      assert u[k + 1..k + 1 + n] == w'[1..];
      k := k + 1;
    }
    assert u[..] == u[..k] + u[k..k + n] && q[..] == q[..k + n];
    AllDivided(total, d, q[..], u[..k], u[k..k + n]);
  }

  lemma NothingDivided(total: nat, d: nat, left: nat, zeros: seq<digit>, rest: seq<digit>)
    requires total == Val(rest)
    requires forall i :: 0 <= i < |zeros| ==> zeros[i] == 0
    ensures Divided(total, d, zeros, left, rest)
  {
    ValZeros(zeros);
  }

  lemma NextWindow(top: seq<digit>, next: digit, d: nat)
    requires Val(top) < d
    ensures Val(top + [next]) < 0x1_0000 * d
  {
    ValSnoc(top, next);
  }

  /** A remainder below the n-digit divisor leaves the top digit of its window zero. */
  lemma RemainderFits(was: seq<digit>, w: seq<digit>, q: nat, d: seq<digit>)
    requires |w| == |d| + 1 && IsQuotRem(Val(was), Val(d), q, Val(w))
    ensures w[0] == 0 && Val(w[1..]) < Val(d)
  {
    ValBound(d);
    assert [w[0]] + w[1..] == w;
    LeadingZeros([w[0]], w[1..]);
  }

  lemma OneMoreDigit(total: nat, d: nat, quot: seq<digit>, digit: digit, left: nat,
                     before: seq<digit>, w: seq<digit>, w': seq<digit>, after: seq<digit>)
    requires d > 0 && |w| == |w'| && |after| == left
    requires IsQuotRem(Val(w), d, digit, Val(w'))
    requires Divided(total, d, quot, left + 1, before + w + after)
    ensures Divided(total, d, quot + [digit], left, before + w' + after)
  {
    hide *;
    var p, b := Pow(left), Val(before) * Pow(|w|);
    PowStep(left);
    WindowValue(before, w, after, b, p);
    WindowValue(before, w', after, b, p);
    ValSnoc(quot, digit);
    WholeDivision(Val(w), d, digit, Val(w'));
    UnfoldDivided(total, d, quot, left + 1, before + w + after, Val(quot), 0x1_0000 * p);
    DivideSum(total, b, Val(w), Val(w'), Val(after), digit, d, p, Val(quot));
    FoldDivided(total, d, quot + [digit], left, before + w' + after, Val(quot) * 0x1_0000 + digit, p);
  }

  lemma PowStep(k: nat)
    ensures Pow(k + 1) == 0x1_0000 * Pow(k)
  {
  }

  lemma UnfoldDivided(total: nat, d: nat, quot: seq<digit>, left: nat, rest: seq<digit>, q: nat, p: nat)
    requires Divided(total, d, quot, left, rest) && q == Val(quot) && p == Pow(left)
    ensures total == Val(rest) + q * d * p
  {
  }

  lemma FoldDivided(total: nat, d: nat, quot: seq<digit>, left: nat, rest: seq<digit>, q: nat, p: nat)
    requires total == Val(rest) + q * d * p && q == Val(quot) && p == Pow(left)
    ensures Divided(total, d, quot, left, rest)
  {
  }

  lemma WindowValue(before: seq<digit>, w: seq<digit>, after: seq<digit>, b: nat, p: nat)
    requires b == Val(before) * Pow(|w|) && p == Pow(|after|)
    ensures Val(before + w + after) == (b + Val(w)) * p + Val(after)
  {
    ValSplit(before + w, after);
    ValSplit(before, w);
  }

  lemma WholeDivision(x: nat, d: nat, q: nat, r: nat)
    requires IsQuotRem(x, d, q, r)
    ensures x == q * d + r
  {
  }

  lemma DivideSum(total: nat, b: nat, w: nat, w': nat, a: nat, digit: nat, d: nat, p: nat, quot: nat)
    requires w == digit * d + w'
    requires total == (b + w) * p + a + quot * d * (0x1_0000 * p)
    ensures total == (b + w') * p + a + (quot * 0x1_0000 + digit) * d * p
  {
    Distribute(quot * 0x1_0000, digit, d);
    Distribute(quot * 0x1_0000 * d, digit * d, p);
    Distribute(b + w', digit * d, p);
    assert quot * d * (0x1_0000 * p) == (quot * 0x1_0000 * d) * p;
  }

  lemma AllDivided(total: nat, d: nat, quot: seq<digit>, zeros: seq<digit>, rem: seq<digit>)
    requires d > 0 && Val(rem) < d
    requires forall i :: 0 <= i < |zeros| ==> zeros[i] == 0
    requires Divided(total, d, quot, 0, zeros + rem)
    ensures IsQuotRem(total, d, Val(quot), Val(zeros + rem))
  {
    ValZeros(zeros);
    ValSplit(zeros, rem);
    assert Pow(0) == 1;
    UniqueQuotient(total, d, Val(quot), Val(rem));
  }

  // ----- the whole routine

  datatype DivResult = DivideByZero | Divided64(quot: dword, rem: dword)

  /** What __qdivrem is to compute; dividing by zero is a deliberate trap. */
  function Divide64(ull: dword, vll: dword): DivResult {
    if vll == 0 then DivideByZero
    else
      QuotientBelow(ull, vll);
      Divided64(ull / vll, ull % vll)
  }

  /** The four digits of a 64-bit number, and the store back through union uu. */
  function Digits4(x: dword): seq<digit> {
    [HHalf(Hi(x)), LHalf(Hi(x)), HHalf(Lo(x)), LHalf(Lo(x))]
  }

  function FromDigits(a: digit, b: digit, c: digit, d: digit): dword {
    Join(Combine(a, b), Combine(c, d))
  }

  lemma FromDigitsIs(a: digit, b: digit, c: digit, d: digit)
    ensures FromDigits(a, b, c, d) == Three(a, b, c) * 0x1_0000 + d
  {
    CombineIs(a, b);
    CombineIs(c, d);
  }

  lemma CombineIs(a: digit, b: digit)
    ensures Combine(a, b) == a * 0x1_0000 + b
  {
  }

  lemma FourDigits(s: seq<digit>)
    requires |s| == 4
    ensures Val(s) == FromDigits(s[0], s[1], s[2], s[3])
  {
    hide Val, FromDigits;
    FromDigitsIs(s[0], s[1], s[2], s[3]);
    assert s == s[..3] + [s[3]] && s[..3] == s[..2] + [s[2]] && s[..2] == [s[0]] + [s[1]];
    ValSnoc(s[..3], s[3]);
    ValSnoc(s[..2], s[2]);
    ValSnoc([s[0]], s[1]);
    OneDigit([s[0]]);
  }

  lemma DigitsValue(x: dword)
    ensures Val(Digits4(x)) == x
  {
    FourDigits(Digits4(x));
    TheDigits(x);
    hide *;
    HalvesJoin(Hi(x));
    HalvesJoin(Lo(x));
    WordsJoin(x);
  }

  lemma HalvesJoin(w: word)
    ensures Combine(HHalf(w), LHalf(w)) == w
  {
    CombineIs(HHalf(w), LHalf(w));
    HalvesOf(w);
  }

  lemma WordsJoin(x: dword)
    ensures Join(Hi(x), Lo(x)) == x
    ensures forall a: digit, b: digit, c: digit, d: digit ::
              FromDigits(a, b, c, d) == Join(Combine(a, b), Combine(c, d))
  {
  }

  lemma ValSkip(s: seq<digit>, k: nat)
    requires k <= |s|
    requires forall i :: 0 <= i < k ==> s[i] == 0
    ensures Val(s) == Val(s[k..])
  {
    assert s == s[..k] + s[k..];
    ValSplit(s[..k], s[k..]);
    ValZeros(s[..k]);
  }

  lemma TheDigits(x: dword)
    ensures Digits4(x) == [HHalf(Hi(x)), LHalf(Hi(x)), HHalf(Lo(x)), LHalf(Lo(x))]
  {
  }

  lemma Loaded(s: seq<digit>, x: dword)
    requires s == [0] + Digits4(x)
    ensures Val(s) == x
  {
    ValOfZero(Digits4(x));
    DigitsValue(x);
  }

  lemma SmallDividend(x: nat, y: nat)
    requires x < y
    ensures IsQuotRem(x, y, 0, x)
  {
    UniqueQuotient(x, y, 0, x);
  }

  /** One digit of the short division of exercise 16: q, r divide x, and the next digit comes in. */
  lemma ShortStep(x: nat, t: digit, q: nat, r: word, uj: digit)
    requires t > 0 && x == q * t + r && r < t
    ensures var rbj := Combine(r, uj);
            && Div32(rbj, t) <= 0xFFFF && Mod32(rbj, t) < t
            && x * 0x1_0000 + uj == (q * 0x1_0000 + Div32(rbj, t)) * t + Mod32(rbj, t)
  {
    var rbj := Combine(r, uj);
    assert rbj == r * 0x1_0000 + uj;
    QuotientLess(rbj, t, 0x1_0000);
    assert rbj == (rbj / t) * t + rbj % t;
    Distribute(q * 0x1_0000, rbj / t, t);
    Regroup(q, 0x1_0000, t, t * 0x1_0000);
    Associate(q, t, 0x1_0000);
  }

  /** "Change of plan, per exercise 16": division by a single digit, unrolled. */
  method ShortDivide(u1: digit, u2: digit, u3: digit, u4: digit, t: digit) returns (quot: dword, rem: word)
    requires t > 0
    ensures IsQuotRem(FromDigits(u1, u2, u3, u4), t, quot, rem)
  {
    hide *;
    StartShort(u1, t);
    var q1: digit := Div32(u1, t);
    ghost var x1, r1 := u1, Mod32(u1, t);
    ShortStep(x1, t, q1, r1, u2);
    var rbj := Combine(Mod32(u1, t), u2);
    var q2: digit := Div32(rbj, t);
    ghost var x2, r2 := x1 * 0x1_0000 + u2, Mod32(rbj, t);
    ShortStep(x2, t, q1 * 0x1_0000 + q2, r2, u3);
    rbj := Combine(Mod32(rbj, t), u3);
    var q3: digit := Div32(rbj, t);
    ghost var x3, r3 := x2 * 0x1_0000 + u3, Mod32(rbj, t);
    ShortStep(x3, t, (q1 * 0x1_0000 + q2) * 0x1_0000 + q3, r3, u4);
    rbj := Combine(Mod32(rbj, t), u4);
    var q4: digit := Div32(rbj, t);
    rem := Mod32(rbj, t);
    quot := FromDigits(q1, q2, q3, q4);
    EndShort(u1, u2, u3, u4, q1, q2, q3, q4, t, rem);
  }

  lemma StartShort(u1: digit, t: digit)
    requires t > 0
    ensures Div32(u1, t) <= 0xFFFF && Mod32(u1, t) < t
    ensures u1 == Div32(u1, t) * t + Mod32(u1, t)
  {
    QuotientBelow(u1, t);
  }

  lemma EndShort(u1: digit, u2: digit, u3: digit, u4: digit, q1: digit, q2: digit, q3: digit, q4: digit,
                 t: digit, r: nat)
    requires t > 0 && r < t
    requires ((u1 * 0x1_0000 + u2) * 0x1_0000 + u3) * 0x1_0000 + u4
             == (((q1 * 0x1_0000 + q2) * 0x1_0000 + q3) * 0x1_0000 + q4) * t + r
    ensures IsQuotRem(FromDigits(u1, u2, u3, u4), t, FromDigits(q1, q2, q3, q4), r)
  {
    FromDigitsIs(u1, u2, u3, u4);
    FromDigitsIs(q1, q2, q3, q4);
    hide FromDigits;
    UniqueQuotient(Three(u1, u2, u3) * 0x1_0000 + u4, t, Three(q1, q2, q3) * 0x1_0000 + q4, r);
  }

  // ----- normalising

  lemma {:induction false} Pow2Mono(a: nat, b: nat)
    requires a <= b
    ensures Pow2(a) <= Pow2(b)
  {
    if a < b {
      Pow2Mono(a, b - 1);
    }
  }

  lemma Pow2Sixteen()
    ensures Pow2(0) == 1 && Pow2(15) == 0x8000 && Pow2(16) == 0x1_0000
  {
    SplitDigit(1);
    assert Pow2(0) == 1 && Pow2(1) == 2;
    assert Pow2(16) == 2 * Pow2(15);
  }

  /** D1: the shift that brings the top digit of the divisor to at least B/2. */
  method NormalShift(v1: digit) returns (d: nat)
    requires v1 > 0
    ensures d <= 15 && 0x8000 <= v1 * Pow2(d) <= 0xFFFF
  {
    hide *;
    d := 0;
    var t: word := v1;
    Pow2Sixteen();
    while t < 0x8000
      invariant t == v1 * Pow2(d) && t <= 0xFFFF
      decreases 0x1_0000 - t
    {
      Doubled(v1, t, d);
      t, d := Shl32(t, 1), d + 1;
    }
    if d > 15 {
      Pow2Mono(16, d);
      MulMono(1, v1, Pow2(d));
      assert false;
    }
  }

  lemma Doubled(v1: digit, t: word, d: nat)
    requires v1 > 0 && t == v1 * Pow2(d) && t < 0x8000
    ensures Shl32(t, 1) == v1 * Pow2(d + 1) && Shl32(t, 1) == 2 * t && t > 0
  {
    assert Pow2(0) == 1 && Pow2(1) == 2 && Pow2(d + 1) == 2 * Pow2(d);
    MulMono(1, v1, Pow2(d));
    var p := Pow2(d);
    hide *;
    DoubledProduct(v1, p, t);
  }

  lemma DoubledProduct(v1: int, p: int, t: int)
    requires t == v1 * p
    ensures 2 * t == v1 * (2 * p)
  {
  }

  lemma ShiftBelow(s: seq<digit>, k: nat)
    requires s != [] && (s[0] + 1) * k <= 0x1_0000 && k > 0
    ensures Val(s) * k < Pow(|s|)
  {
    var p := Pow(|s| - 1);
    ValCons(s[0], s[1..]);
    assert [s[0]] + s[1..] == s;
    ValBound(s[1..]);
    Distribute(s[0], 1, p);
    var x: int := s[0];
    MulBelow(Val(s), (x + 1) * p, k);
    MulMono((x + 1) * k, 0x1_0000, p);
    Swap3(x + 1, p, k);
  }

  lemma MulBelow(a: int, b: int, k: nat)
    requires a < b && k > 0
    ensures a * k < b * k
  {
    MulMono(a + 1, b, k);
    Distribute(a, 1, k);
  }

  lemma Swap3(a: int, p: int, k: int)
    ensures (a * p) * k == (a * k) * p
  {
  }

  lemma TopDigitAtLeast(s: seq<digit>, x: digit)
    requires s != [] && Val(s) >= x * Pow(|s| - 1)
    ensures s[0] >= x
  {
    ValCons(s[0], s[1..]);
    assert [s[0]] + s[1..] == s;
    ValBound(s[1..]);
    if s[0] < x {
      Distribute(s[0], 1, Pow(|s| - 1));
      MulMono(s[0] + 1, x, Pow(|s| - 1));
      assert false;
    }
  }

  /** The divisor shifted by d: its digits hold v * 2^d, and the first one is at least B/2. */
  lemma NormalDivisor(was: seq<digit>, s: seq<digit>, k: nat)
    requires |s| == |was| && s != [] && k > 0
    requires Val(s) == Val(was) * k && 0x8000 <= was[0] * k
    ensures s[0] >= 0x8000
  {
    var p := Pow(|s| - 1);
    ValCons(was[0], was[1..]);
    assert [was[0]] + was[1..] == was;
    MulMono(was[0] * p, Val(was), k);
    Swap3(was[0], p, k);
    MulMono(0x8000, was[0] * k, p);
    TopDigitAtLeast(s, 0x8000);
  }

  lemma NormalTop(was: seq<digit>, s: seq<digit>, top: seq<digit>, low: seq<digit>, d: seq<digit>, k: nat)
    requires |d| >= 1 && |top| == |d| && s == top + low && |was| == |s|
    requires was[0] == 0 && k <= 0x8000 && Val(s) == Val(was) * k && d[0] >= 0x8000
    ensures Val(top) < Val(d)
  {
    hide *;
    SplitAs(s, top, low, Pow(|low|));
    ZeroTopBound(was, |d| - 1, |low|);
    TopIsSmall(Val(top), Val(low), Val(was), k, Pow(|d| - 1), Pow(|low|), Val(s));
    AtLeastTop(d, 0x8000);
  }

  lemma SplitAs(s: seq<digit>, top: seq<digit>, low: seq<digit>, p: nat)
    requires s == top + low && p == Pow(|low|)
    ensures Val(s) == Val(top) * p + Val(low) && p > 0
  {
    ValSplit(top, low);
  }

  lemma ZeroTopBound(s: seq<digit>, a: nat, b: nat)
    requires |s| == a + b + 1 && s[0] == 0
    ensures Val(s) < Pow(a) * Pow(b)
  {
    assert [0] + s[1..] == s;
    ValOfZero(s[1..]);
    ValBound(s[1..]);
    PowAdd(a, b);
  }

  lemma AtLeastTop(d: seq<digit>, x: nat)
    requires d != [] && x <= d[0]
    ensures Val(d) >= x * Pow(|d| - 1)
  {
    MulMono(x, d[0], Pow(|d| - 1));
  }

  lemma TopIsSmall(top: nat, low: nat, was: nat, k: nat, p: nat, l: nat, s: nat)
    requires l > 0 && was < p * l && k <= 0x8000 && p > 0
    requires s == top * l + low && s == was * k
    ensures top < 0x8000 * p
  {
    if top >= 0x8000 * p {
      MulMono(0x8000 * p, top, l);
      Associate(0x8000, p, l);
      MulMono(k, 0x8000, was);
      assert false;
    }
  }

  /** A dividend not below the divisor has a digit among its last n. */
  lemma DividendReaches(u: seq<digit>, v: seq<digit>)
    requires |u| >= |v| >= 1 && v[0] != 0 && Val(u) >= Val(v)
    requires forall i :: 0 <= i < |u| - |v| ==> u[i] == 0
    ensures u[|u| - |v|] != 0
  {
    var k := |u| - |v|;
    ValSkip(u, k);
    if u[k] == 0 {
      ValOfZero(u[k + 1..]);
      assert u[k..] == [0] + u[k + 1..];
      ValBound(u[k + 1..]);
      ValCons(v[0], v[1..]);
      assert [v[0]] + v[1..] == v;
      MulMono(1, v[0], Pow(|v| - 1));
      assert false;
    }
  }

  lemma ScaledDivision(x: nat, y: nat, k: nat, q: nat, r: nat) returns (r0: nat)
    requires k > 0 && y > 0 && IsQuotRem(x * k, y * k, q, r)
    ensures IsQuotRem(x, y, q, r0) && r == r0 * k && r0 < y && q <= x
  {
    var q';
    q', r0 := x / y, x % y;
    Distribute(q' * y, r0, k);
    Associate(q', y, k);
    MulBelow(r0, y, k);
    UniqueQuotient(x * k, y * k, q', r0 * k);
    QuotientBelow(x, y);
  }

  lemma ToTheEnd(s: seq<digit>, k: nat, n: nat)
    requires k + n == |s|
    ensures s[k..k + n] == s[k..]
  {
  }

  lemma StillZeros(s: seq<digit>, t: seq<digit>, k: nat)
    requires k <= |s| == |t| && s[..k] == t[..k]
    requires forall i :: 0 <= i < k ==> s[i] == 0
    ensures forall i :: 0 <= i < k ==> t[i] == 0
  {
    assert forall i :: 0 <= i < k ==> t[i] == t[..k][i] == s[..k][i] == s[i];
  }

  lemma Cut(s: seq<digit>, j: nat, k: nat)
    requires j <= k <= |s|
    ensures s[j..] == s[j..k] + s[k..]
  {
  }

  /** shl(&u[0], m + n, d); shl(&v[1], n - 1, d); u and v run to the end of their arrays. */
  method Normalise(u: array<digit>, ub: nat, v: array<digit>, n: nat, d: nat)
    requires u != v && u.Length == v.Length == 5 && 2 <= n && ub + n <= 4 && d <= 15
    requires forall i :: 0 <= i <= ub ==> u[i] == 0
    requires 0x8000 <= v[5 - n] * Pow2(d) <= 0xFFFF
    modifies u, v
    ensures Val(u[..]) == old(Val(u[..])) * Pow2(d)
    ensures Val(v[5 - n..]) == old(Val(v[5 - n..])) * Pow2(d)
    ensures forall i :: 0 <= i < ub ==> u[i] == 0
    ensures v[5 - n] >= 0x8000 && Val(u[ub..ub + n]) < Val(v[5 - n..])
  {
    hide *;
    ghost var was, wasV := u[ub..], v[5 - n..];
    ValSkip(u[..], ub);
    Pow2Sixteen();
    if d > 0 {
      Pow2Mono(d, 15);
      RoomToShift(was, Pow2(d));
      RoomForDivisor(wasV, d);
      ToTheEnd(u[..], ub, 4 - ub + 1);
      ToTheEnd(v[..], 5 - n, n - 1 + 1);
      Shl(u, ub, 4 - ub, d);
      Shl(v, 5 - n, n - 1, d);
      ToTheEnd(u[..], ub, 4 - ub + 1);
      ToTheEnd(v[..], 5 - n, n - 1 + 1);
      StillZeros(old(u[..]), u[..], ub);
      ValSkip(u[..], ub);
    }
    NormalDivisor(wasV, v[5 - n..], Pow2(d));
    Cut(u[..], ub, ub + n);
    NormalTop(was, u[ub..], u[ub..ub + n], u[ub + n..], v[5 - n..], Pow2(d));
  }

  lemma RoomToShift(s: seq<digit>, k: nat)
    requires s != [] && s[0] == 0 && 0 < k <= 0x8000
    ensures Val(s) * k < Pow(|s|)
  {
    ShiftBelow(s, k);
  }

  lemma RoomForDivisor(s: seq<digit>, d: nat)
    requires s != [] && 1 <= d <= 15 && s[0] * Pow2(d) <= 0xFFFF
    ensures Val(s) * Pow2(d) < Pow(|s|)
  {
    SplitDigit(d);
    hide *;
    RoomAbove(s[0], Pow2(d), Pow2(16 - d));
    ShiftBelow(s, Pow2(d));
  }

  lemma RoomAbove(x: int, k: nat, c: nat)
    requires k * c == 0x1_0000 && x * k <= 0xFFFF
    ensures (x + 1) * k <= 0x1_0000
  {
    if x >= c {
      MulMono(c, x, k);
      assert false;
    }
    MulMono(x + 1, c, k);
  }

  // ----- the whole routine

  /** From the normalising shift to the end, for a divisor of n >= 2 digits. */
  method LongDivide(u: array<digit>, v: array<digit>, q: array<digit>, n: nat, ull: dword, vll: dword)
    returns (quot: dword, rem: dword)
    requires u != v && u != q && v != q && u.Length == v.Length == q.Length == 5
    requires 2 <= n <= 4 && v[5 - n] != 0 && u[0] == 0
    requires Val(u[..]) == ull && Val(v[5 - n..]) == vll && vll <= ull
    modifies u, v, q
    ensures IsQuotRem(ull, vll, quot, rem)
  {
    hide *;
    var m, ub := 4 - n, 0;
    while u[ub + 1] == 0
      invariant ub + m == 4 - n && m >= 0
      invariant u[..] == old(u[..]) && v[..] == old(v[..])
      invariant forall i :: 0 <= i <= ub ==> u[i] == 0
      decreases m
    {
      if m == 0 {
        DividendReaches(u[..], v[5 - n..]);
        assert false;
      }
      m, ub := m - 1, ub + 1;
    }
    var i := 4 - m;
    while i > 0
      invariant 0 <= i <= 4 - m
      invariant u[..] == old(u[..]) && v[..] == old(v[..])
      invariant forall j :: i <= j < 4 - m ==> q[j] == 0
    {
      i := i - 1;
      q[i] := 0;
    }
    var d := NormalShift(v[5 - n]);
    ghost var k := Pow2(d);
    Normalise(u, ub, v, n, d);
    DigitLoop(u, ub, v, n, q);
    ghost var r := ScaledDivision(ull, vll, k, Val(q[..]), Val(u[..]));
    if d > 0 {
      ValSkip(u[..], 4 - n);
      assert u[4 - n..] == u[4 - n..4 - n + n + 1];
      Unshift(u, 4 - n, n, d, r);
      assert u[5 - n..] == u[4 - n + 1..4 - n + n + 1];
      assert forall i :: 0 <= i < 5 - n ==> u[i] == u[..5 - n][i] == 0;
      ValSkip(u[..], 5 - n);
    } else {
      Pow2Sixteen();
      TimesOne(r);
    }
    Stored(u[..], r);
    Stored(q[..], Val(q[..]));
    rem := FromDigits(u[1], u[2], u[3], u[4]);
    quot := FromDigits(q[1], q[2], q[3], q[4]);
  }

  lemma DividesTo(x: dword, y: dword)
    ensures y == 0 ==> Divide64(x, y) == DivideByZero
  {
  }

  lemma Explicit(x: dword, y: dword, q: dword, r: dword)
    requires IsQuotRem(x, y, q, r)
    ensures y != 0 && q == x / y && r == x % y && Divide64(x, y) == Divided64(q, r)
  {
  }

  lemma LoadedDigits(x: dword)
    ensures FromDigits(HHalf(Hi(x)), LHalf(Hi(x)), HHalf(Lo(x)), LHalf(Lo(x))) == x
  {
    DigitsValue(x);
    FourDigits(Digits4(x));
  }

  lemma TimesOne(x: nat)
    ensures x * 1 == x
  {
  }

  lemma Stored(s: seq<digit>, x: nat)
    requires |s| == 5 && Val(s) == x && x < 0x1_0000_0000_0000_0000
    ensures FromDigits(s[1], s[2], s[3], s[4]) == x
  {
    assert Pow(0) == 1 && Pow(1) == 0x1_0000 && Pow(2) == 0x1_0000_0000;
    assert Pow(4) == 0x1_0000 * Pow(3) && Pow(3) == 0x1_0000 * Pow(2);
    assert s == s[..1] + s[1..];
    LeadingZeros(s[..1], s[1..]);
    FourDigits(s[1..]);
  }

  method QDivRem(ull: dword, vll: dword) returns (r: DivResult)
    ensures r == Divide64(ull, vll)
    ensures vll != 0 ==> r.Divided64? && r.quot == ull / vll && r.rem == ull % vll
  {
    hide *;
    if vll == 0 {
      DividesTo(ull, vll);
      return DivideByZero;
    }
    if ull < vll {
      SmallDividend(ull, vll);
      Explicit(ull, vll, 0, ull);
      return Divided64(0, ull);
    }
    var u, v, q := new digit[5], new digit[5], new digit[5];
    u[0] := 0;
    u[1], u[2], u[3], u[4] := HHalf(Hi(ull)), LHalf(Hi(ull)), HHalf(Lo(ull)), LHalf(Lo(ull));
    v[1], v[2], v[3], v[4] := HHalf(Hi(vll)), LHalf(Hi(vll)), HHalf(Lo(vll)), LHalf(Lo(vll));
    assert u[1..] == Digits4(ull) by {
      TheDigits(ull);
      assert u[1..] == [u[1], u[2], u[3], u[4]];
    }
    assert v[1..] == Digits4(vll) by {
      TheDigits(vll);
      assert v[1..] == [v[1], v[2], v[3], v[4]];
    }
    assert u[..] == [0] + u[1..];
    Loaded(u[..], ull);
    Loaded([0] + v[1..], vll);
    var n := 4;
    ghost var vs := [0] + v[1..];
    while v[5 - n] == 0
      invariant 2 <= n <= 4 && forall i :: 0 <= i < 5 - n ==> vs[i] == 0
      decreases n
    {
      n := n - 1;
      if n == 1 {
        ValSkip(vs, 4);
        OneDigit(vs[4..]);
        LoadedDigits(ull);
        var quot, rem := ShortDivide(u[1], u[2], u[3], u[4], v[4]);
        Explicit(ull, vll, quot, rem);
        return Divided64(quot, rem);
      }
    }
    assert v[5 - n..] == vs[5 - n..];
    ValSkip(vs, 5 - n);
    var quot, rem := LongDivide(u, v, q, n, ull, vll);
    Explicit(ull, vll, quot, rem);
    return Divided64(quot, rem);
  }
}
