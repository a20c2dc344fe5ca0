/** Machine words as natural numbers: the `unsigned int', `long long' and half-word
    (`digit') types of longlong.h, with every wrap-around written out. */
module Words {

  /** One half-word: a digit in base 2^16. */
  type digit = x: int | 0 <= x < 0x1_0000

  /** unsigned int */
  type word = x: int | 0 <= x < 0x1_0000_0000

  /** unsigned long long */
  type dword = x: int | 0 <= x < 0x1_0000_0000_0000_0000

  /** long long */
  type sdword = x: int | -0x8000_0000_0000_0000 <= x < 0x8000_0000_0000_0000

  /** The value an unsigned int expression has in C: the mathematical one modulo 2^32. */
  function U32(x: int): word {
    x % 0x1_0000_0000
  }

  /** unsigned int `*', `-' and `+'. */
  function Mul32(x: word, y: word): word {
    U32(x * y)
  }

  function Sub32(x: word, y: word): word {
    U32(x - y)
  }

  function Add32(x: word, y: word): word {
    U32(x + y)
  }

  /** unsigned int `/' and `%'. */
  function Div32(x: word, y: word): word
    requires y > 0
  {
    QuotientBelow(x, y);
    x / y
  }

  function Mod32(x: word, y: word): word
    requires y > 0
  {
    x % y
  }

  lemma AtLeast(a: nat, y: nat)
    requires y > 0
    ensures a * y >= a
  {
  }

  lemma QuotientBelow(x: nat, y: nat)
    requires y > 0
    ensures 0 <= x / y <= x
  {
    var q := x / y;
    assert x == q * y + x % y;
    AtLeast(q, y);
  }

  function U64(x: int): dword {
    x % 0x1_0000_0000_0000_0000
  }

  /** The 64 bits of a long long, and unary minus on them. */
  function Bits(a: sdword): dword {
    U64(a)
  }

  function Neg64(x: dword): dword {
    U64(0 - x as int)
  }

  /** Reading the 64 bits of an unsigned value as two's complement. */
  function ToSigned(x: dword): sdword {
    if x < 0x8000_0000_0000_0000 then x else x - 0x1_0000_0000_0000_0000
  }

  /** HHALF, LHALF, LHUP of longlong.h. */
  function HHalf(x: word): digit {
    x / 0x1_0000
  }

  function LHalf(x: word): digit {
    x % 0x1_0000
  }

  function LHUp(x: word): word {
    U32(x * 0x1_0000)
  }

  /** The ui[H] and ui[L] members of union uu, and the store through them. */
  function Hi(x: dword): word {
    x / 0x1_0000_0000
  }

  function Lo(x: dword): word {
    x % 0x1_0000_0000
  }

  function Join(hi: word, lo: word): dword {
    hi * 0x1_0000_0000 + lo
  }

  /** Bitwise `|' of two operands whose bits do not overlap: every set bit of `hi' is worth at
      least `weight' and `lo' is below `weight'. The precondition is that disjointness. */
  function Or(hi: nat, lo: nat, weight: nat): nat
    requires weight > 0 && hi % weight == 0 && lo < weight
  {
    hi + lo
  }

  /** COMBINE of qdivrem.c: (a << HALF_BITS) | b. */
  function Combine(a: word, b: digit): word {
    U32(a * 0x1_0000) + b
  }

  function Pow2(k: nat): (p: nat)
    ensures p > 0
  {
    if k == 0 then 1 else 2 * Pow2(k - 1)
  }

  /** unsigned int `<<' and `>>'. */
  function Shl32(x: word, k: nat): word {
    U32(x * Pow2(k))
  }

  function Shr32(x: word, k: nat): word {
    QuotientBelow(x, Pow2(k));
    x / Pow2(k)
  }
}
