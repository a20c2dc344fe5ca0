/** Numbers written as big-endian sequences of base-2^16 digits. */
module Digits {
  import opened Products
  import opened Words

  function Pow(k: nat): nat
    ensures Pow(k) > 0
  {
    if k == 0 then 1 else 0x1_0000 * Pow(k - 1)
  }

  function Val(s: seq<digit>): nat {
    if s == [] then 0 else s[0] * Pow(|s| - 1) + Val(s[1..])
  }

  lemma {:induction false} PowAdd(a: nat, b: nat)
    ensures Pow(a + b) == Pow(a) * Pow(b)
  {
    if a == 0 {
    } else {
      PowAdd(a - 1, b);
      Associate(0x1_0000, Pow(a - 1), Pow(b));
    }
  }

  lemma ValCons(x: digit, s: seq<digit>)
    ensures Val([x] + s) == x * Pow(|s|) + Val(s)
  {
    assert ([x] + s)[1..] == s;
  }

  /** Val is a base-B positional value: a number splits at any digit. */
  lemma {:induction false} ValSplit(s: seq<digit>, t: seq<digit>)
    ensures Val(s + t) == Val(s) * Pow(|t|) + Val(t)
  {
    if s == [] {
      assert s + t == t;
    } else {
      ValSplit(s[1..], t);
      assert (s + t)[1..] == s[1..] + t;
      PowAdd(|s| - 1, |t|);
      Associate(s[0], Pow(|s| - 1), Pow(|t|));
      Distribute(s[0] * Pow(|s| - 1), Val(s[1..]), Pow(|t|));
      assert (s + t)[0] == s[0] && |(s + t)| - 1 == |s| - 1 + |t|;
    }
  }

  lemma {:induction false} ValBound(s: seq<digit>)
    ensures Val(s) < Pow(|s|)
  {
    if s != [] {
      ValBound(s[1..]);
      MulMono(s[0], 0xFFFF, Pow(|s| - 1));
    }
  }

  lemma ValSnoc(s: seq<digit>, x: digit)
    ensures Val(s + [x]) == Val(s) * 0x1_0000 + x
  {
    ValSplit(s, [x]);
    assert Val([x]) == x * Pow(0) + Val([x][1..]);
    assert Pow(0) == 1 && Pow(1) == 0x1_0000;
  }

  lemma {:induction false} ValZeros(s: seq<digit>)
    requires forall i :: 0 <= i < |s| ==> s[i] == 0
    ensures Val(s) == 0
  {
    if s != [] {
      ValZeros(s[1..]);
    }
  }

  /** A number below B^|t| leaves no digit in front of its last |t| ones. */
  lemma {:induction false} LeadingZeros(s: seq<digit>, t: seq<digit>)
    requires Val(s + t) < Pow(|t|)
    ensures forall i :: 0 <= i < |s| ==> s[i] == 0
    ensures Val(s + t) == Val(t)
  {
    if s == [] {
      assert s + t == t;
    } else {
      ValSplit(s, t);
      if Val(s) > 0 {
        MulMono(1, Val(s), Pow(|t|));
        assert false;
      }
      ZeroDigits(s);
    }
  }

  lemma {:induction false} ZeroDigits(s: seq<digit>)
    requires Val(s) == 0
    ensures forall i :: 0 <= i < |s| ==> s[i] == 0
  {
    if s != [] {
      if s[0] > 0 {
        MulMono(1, s[0], Pow(|s| - 1));
        assert false;
      }
      ZeroDigits(s[1..]);
    }
  }
}
