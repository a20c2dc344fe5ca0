/** Where the constants of FIPS 180-2 come from: sections 4.2.2 and 5.3.2, and the change notice for SHA-224. */
module RoundConstants {
  import opened Sequences
  import opened Products
  import opened Fips180

  const TWO32: nat := 0x1_0000_0000

  predicate IsPrime(n: nat) {
    n >= 2 && forall d: nat :: 2 <= d < n ==> n % d != 0
  }

  function PrimesBelow(n: nat): set<nat> {
    set q: nat | q < n && IsPrime(q)
  }

  /** p is the prime with exactly i smaller ones. */
  predicate NthPrime(p: nat, i: nat) {
    IsPrime(p) && |PrimesBelow(p)| == i
  }

  /** n is the integer part of 2^32 times the cube root of p. */
  predicate CubeRoot(n: nat, p: nat) {
    n * n * n <= p * TWO32 * TWO32 * TWO32 < (n + 1) * (n + 1) * (n + 1)
  }

  /** n is the integer part of 2^32 times the square root of p. */
  predicate SquareRoot(n: nat, p: nat) {
    n * n <= p * TWO32 * TWO32 < (n + 1) * (n + 1)
  }

  // ----- the first primes

  function PrimeRow(r: nat): (row: seq<nat>)
    requires r < 8
    ensures |row| == 8
  {
    match r
    case 0 => [2, 3, 5, 7, 11, 13, 17, 19]
    case 1 => [23, 29, 31, 37, 41, 43, 47, 53]
    case 2 => [59, 61, 67, 71, 73, 79, 83, 89]
    case 3 => [97, 101, 103, 107, 109, 113, 127, 131]
    case 4 => [137, 139, 149, 151, 157, 163, 167, 173]
    case 5 => [179, 181, 191, 193, 197, 199, 211, 223]
    case 6 => [227, 229, 233, 239, 241, 251, 257, 263]
    case _ => [269, 271, 277, 281, 283, 293, 307, 311]
  }

  function Prime(i: nat): nat
    requires i < 64
  {
    PrimeRow(i / 8)[i % 8]
  }

  /** Trial division, enough for numbers below 361. */
  predicate Undivided(n: nat) {
    && n >= 2 && (n % 2 != 0 || n < 4) && (n % 3 != 0 || n < 9) && (n % 5 != 0 || n < 25) && (n % 7 != 0 || n < 49)
    && (n % 11 != 0 || n < 121) && (n % 13 != 0 || n < 169) && (n % 17 != 0 || n < 289)
  }

  lemma UndividedIsPrime(n: nat)
    requires n < 361
    ensures Undivided(n) <==> IsPrime(n)
  {
    hide Undivided;
    if Undivided(n) {
      AtLeastTwo(n);
      if !IsPrime(n) {
        var d: nat :| 2 <= d < n && n % d == 0;
        TwoFactors(n, d, n / d);
      }
    } else if IsPrime(n) {
      Divided(n);
    }
  }

  lemma AtLeastTwo(n: nat)
    requires Undivided(n)
    ensures n >= 2
  {
  }

  lemma Divided(n: nat)
    requires n >= 2 && !Undivided(n)
    ensures !IsPrime(n)
  {
    var d := if n % 2 == 0 && n >= 4 then 2 else if n % 3 == 0 && n >= 9 then 3 else if n % 5 == 0 && n >= 25 then 5
             else if n % 7 == 0 && n >= 49 then 7 else if n % 11 == 0 && n >= 121 then 11
             else if n % 13 == 0 && n >= 169 then 13 else 17;
    assert n % d == 0 && d < n;
  }

  lemma TwoFactors(n: nat, d: nat, q: nat)
    requires 2 <= d < n < 361 && n % d == 0 && q == n / d
    ensures !Undivided(n)
  {
    hide Undivided;
    assert n == q * d;
    if q < 2 {
      MulMono(q, 1, d);
      assert false;
    }
    if d <= q {
      SmallFactor(n, d, q);
    } else {
      SmallFactor(n, q, d);
    }
  }

  lemma SmallFactor(n: nat, e: nat, f: nat)
    requires (n == e * f || n == f * e) && 2 <= e <= f && n < 361
    ensures !Undivided(n)
  {
    MulMono(e, f, e);
    if e >= 19 {
      MulMono(19, e, e);
      assert false;
    }
    if e % 2 == 0 {
      Multiple(n, e / 2, f, 2);
    } else if e % 3 == 0 {
      Multiple(n, e / 3, f, 3);
    } else {
      assert e == 5 || e == 7 || e == 11 || e == 13 || e == 17;
      Multiple(n, 1, f, e);
    }
  }

  lemma Multiple(n: nat, m: nat, f: nat, d: nat)
    requires n == (m * d) * f && d > 0
    ensures n % d == 0
  {
    Associate(d, m, f);
    UniqueQuotient(n, d, m * f, 0);
  }

  // ----- by rows

  /** No odd prime lies strictly between a and the odd number b. */
  predicate NoneBetween(a: nat, b: nat) {
    b <= a + 2 || (!Undivided(b - 2) && NoneBetween(a, b - 2))
  }

  /** The prime before the m-th of row r, or 1. */
  function Before(r: nat, m: nat): nat
    requires r < 8 && m < 8
  {
    if m > 0 then PrimeRow(r)[m - 1] else if r > 0 then PrimeRow(r - 1)[7] else 1
  }

  /** The integer part of the cube root of p. */
  function Whole(p: nat): nat {
    if p < 8 then 1 else if p < 27 then 2 else if p < 64 then 3 else if p < 125 then 4 else if p < 216 then 5 else 6
  }

  /** The first m entries of row r are the primes that come next. */
  predicate PrimesTo(r: nat, m: nat)
    requires r < 8 && m <= 8
  {
    m == 0 || (PrimesTo(r, m - 1) && Undivided(PrimeRow(r)[m - 1]) && Before(r, m - 1) < PrimeRow(r)[m - 1] < 361
               && NoneBetween(Before(r, m - 1), PrimeRow(r)[m - 1]))
  }

  predicate FitsTo(r: nat, m: nat)
    requires r < 8 && m <= 8
  {
    m == 0 || (FitsTo(r, m - 1)
               && CubeRoot(Whole(PrimeRow(r)[m - 1]) * TWO32 + (KRow(r)[m - 1] as nat), PrimeRow(r)[m - 1]))
  }

  lemma Primes0() ensures PrimesTo(0, 8) { assert PrimesTo(0, 4); }
  lemma Primes1() ensures PrimesTo(1, 8) { assert PrimesTo(1, 4); }
  lemma Primes2() ensures PrimesTo(2, 8) { assert PrimesTo(2, 4); }
  lemma Primes3() ensures PrimesTo(3, 8) { assert PrimesTo(3, 4); }
  lemma Primes4() ensures PrimesTo(4, 8) { assert PrimesTo(4, 4); }
  lemma Primes5() ensures PrimesTo(5, 8) { assert PrimesTo(5, 4); }
  lemma Primes6() ensures PrimesTo(6, 8) { assert PrimesTo(6, 4); }
  lemma Primes7() ensures PrimesTo(7, 8) { assert PrimesTo(7, 4); }

  lemma Fits0() ensures FitsTo(0, 8) {}
  lemma Fits1() ensures FitsTo(1, 8) {}
  lemma Fits2() ensures FitsTo(2, 8) {}
  lemma Fits3() ensures FitsTo(3, 8) {}
  lemma Fits4() ensures FitsTo(4, 8) {}
  lemma Fits5() ensures FitsTo(5, 8) {}
  lemma Fits6() ensures FitsTo(6, 8) {}
  lemma Fits7() ensures FitsTo(7, 8) {}

  lemma AllRows(r: nat)
    requires r < 8
    ensures PrimesTo(r, 8) && FitsTo(r, 8)
  {
    hide *;
    match r {
      case 0 => Primes0(); Fits0();
      case 1 => Primes1(); Fits1();
      case 2 => Primes2(); Fits2();
      case 3 => Primes3(); Fits3();
      case 4 => Primes4(); Fits4();
      case 5 => Primes5(); Fits5();
      case 6 => Primes6(); Fits6();
      case _ => Primes7(); Fits7();
    }
  }

  // ----- all of them

  lemma {:induction false} FirstOf(r: nat, m: nat, k: nat)
    requires r < 8 && k < m <= 8 && PrimesTo(r, m) && FitsTo(r, m)
    ensures Undivided(PrimeRow(r)[k]) && Before(r, k) < PrimeRow(r)[k] < 361
    ensures NoneBetween(Before(r, k), PrimeRow(r)[k])
    ensures CubeRoot(Whole(PrimeRow(r)[k]) * TWO32 + (KRow(r)[k] as nat), PrimeRow(r)[k])
  {
    hide PrimeRow, KRow, Undivided, NoneBetween, Before, CubeRoot;
    if k < m - 1 {
      FirstOf(r, m - 1, k);
    }
  }

  lemma {:induction false} NotBetween(a: nat, b: nat, n: nat)
    requires NoneBetween(a, b) && 2 <= a < n < b && n % 2 == b % 2
    ensures !Undivided(n)
  {
    hide Undivided;
    if n < b - 2 {
      NotBetween(a, b - 2, n);
    }
  }

  lemma OddOrTwo(n: nat)
    requires Undivided(n)
    ensures n == 2 || n % 2 == 1
  {
  }

  function Previous(i: nat): nat
    requires i < 64
  {
    if i == 0 then 1 else Prime(i - 1)
  }

  lemma InRow(i: nat)
    requires i < 64
    ensures Prime(i) == PrimeRow(i / 8)[i % 8] && Previous(i) == Before(i / 8, i % 8) && K[i] == KRow(i / 8)[i % 8]
  {
    hide PrimeRow, KRow;
  }

  lemma FirstIsTwo(i: nat)
    requires i < 64
    ensures i == 0 ==> Previous(i) == 1 && Prime(i) == 2
    ensures i > 0 ==> Previous(i) == Prime(i - 1)
  {
    hide KRow;
  }

  lemma NextPrime(i: nat)
    requires i < 64
    ensures IsPrime(Prime(i)) && Previous(i) < Prime(i) && forall n :: Previous(i) < n < Prime(i) ==> !IsPrime(n)
    ensures CubeRoot(Whole(Prime(i)) * TWO32 + (K[i] as nat), Prime(i))
  {
    hide *;
    InRow(i);
    AllRows(i / 8);
    FirstOf(i / 8, 8, i % 8);
    UndividedIsPrime(Prime(i));
    OddOrTwo(Prime(i));
    FirstIsTwo(i);
    if i > 0 {
      InRow(i - 1);
      AllRows((i - 1) / 8);
      FirstOf((i - 1) / 8, 8, (i - 1) % 8);
    }
    forall n | Previous(i) < n < Prime(i)
      ensures !IsPrime(n)
    {
      UndividedIsPrime(n);
      if Undivided(n) {
        OddOrTwo(n);
        AtLeastTwo(Previous(i));
        NotBetween(Previous(i), Prime(i), n);
      }
    }
  }

  /** The rows hold the first 64 primes, in order. */
  lemma {:induction false} InOrder(i: nat)
    requires i < 64
    ensures NthPrime(Prime(i), i)
  {
    hide Prime, CubeRoot, Whole;
    NextPrime(i);
    if i == 0 {
      assert PrimesBelow(Prime(0)) == {};
    } else {
      InOrder(i - 1);
      assert PrimesBelow(Prime(i)) == PrimesBelow(Prime(i - 1)) + {Prime(i - 1)};
    }
  }

  /** Section 4.2.2: the i-th round constant is the first 32 bits of the fractional part of the cube root of the
      i-th prime. */
  lemma CubeRoots(i: nat)
    requires i < 64
    ensures |K| == 64
    ensures exists p: nat, n: nat :: NthPrime(p, i) && CubeRoot(n, p) && n % TWO32 == K[i] as nat
  {
    hide Prime, CubeRoot, NthPrime;
    InOrder(i);
    NextPrime(i);
    var n := Whole(Prime(i)) * TWO32 + (K[i] as nat);
    SplitsInto(Whole(Prime(i)), W(K[i]));
    assert NthPrime(Prime(i), i) && CubeRoot(n, Prime(i));
  }

  // ----- the initial hash values

  /** The integer part of 2^32 times the square root of the i-th prime from the ninth on. */
  function Start224(i: nat): nat
    requires i < 8
  {
    [20597939549, 23129106730, 23913365850, 26125266136, 27501209191, 28163984007, 29444812301, 31267833885][i]
  }

  predicate StartsTo(m: nat)
    requires m <= 8
  {
    m == 0 || (StartsTo(m - 1)
               && SquareRoot(((m + 1) / 2) * TWO32 + (InitialHash(false)[m - 1].bits as nat), PrimeRow(0)[m - 1]))
  }

  predicate Starts224To(m: nat)
    requires m <= 8
  {
    m == 0 || (Starts224To(m - 1)
               && SquareRoot(Start224(m - 1) * TWO32 + (InitialHash(true)[m - 1].bits as nat),
                             PrimeRow(1)[m - 1] * TWO32 * TWO32))
  }

  lemma Starts256() ensures StartsTo(8) {}
  lemma Starts224() ensures Starts224To(8) {}

  lemma {:induction false} StartOf(m: nat, k: nat)
    requires k < m <= 8 && StartsTo(m) && Starts224To(m)
    ensures SquareRoot(((k + 2) / 2) * TWO32 + (InitialHash(false)[k].bits as nat), PrimeRow(0)[k])
    ensures SquareRoot(Start224(k) * TWO32 + (InitialHash(true)[k].bits as nat), PrimeRow(1)[k] * TWO32 * TWO32)
  {
    hide PrimeRow, Start224, InitialHash, SquareRoot;
    if k < m - 1 {
      StartOf(m - 1, k);
    }
  }

  /** The initial hash values are the first 32 bits of the fractional parts of the square roots of the first
      eight primes; those of SHA-224 are the second 32 bits for the next eight. */
  lemma SquareRoots(i: nat)
    requires i < 8
    ensures exists p: nat, n: nat :: NthPrime(p, i) && SquareRoot(n, p)
                                     && n % TWO32 == InitialHash(false)[i].bits as nat
    ensures exists p: nat, n: nat :: NthPrime(p, i + 8) && SquareRoot(n, p * TWO32 * TWO32)
                                     && n % TWO32 == InitialHash(true)[i].bits as nat
  {
    hide *;
    Starts256();
    Starts224();
    StartOf(8, i);
    InOrder(i);
    InOrder(i + 8);
    InRow(i);
    InRow(i + 8);
    SplitsInto((i + 2) / 2, InitialHash(false)[i]);
    SplitsInto(Start224(i), InitialHash(true)[i]);
    assert NthPrime(Prime(i), i)
           && SquareRoot(((i + 2) / 2) * TWO32 + (InitialHash(false)[i].bits as nat), Prime(i));
    assert NthPrime(Prime(i + 8), i + 8)
           && SquareRoot(Start224(i) * TWO32 + (InitialHash(true)[i].bits as nat), Prime(i + 8) * TWO32 * TWO32);
  }

  lemma SplitsInto(q: nat, w: Word32)
    ensures (q * TWO32 + (w.bits as nat)) % TWO32 == w.bits as nat
  {
    UniqueQuotient(q * TWO32 + (w.bits as nat), TWO32, q, w.bits as nat);
  }
}
