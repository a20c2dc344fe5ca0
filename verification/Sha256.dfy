/** sha256.c: the two forms of the round loop, and the streaming interface, against FIPS 180-2. */
module Sha256 {
  import opened Fips180
  import opened Products
  import Words

  // ----- the macros

  function SHR(x: Word32, n: bv6): Word32
    requires n < 32
  {
    W((x.bits & 0xFFFFFFFF) >> n)
  }

  function ROTR(x: Word32, n: bv6): Word32
    requires 0 < n < 32
  {
    W(SHR(x, n).bits | (x.bits << (32 - n)))
  }

  function S0(x: Word32): Word32 {
    Xor3(ROTR(x, 7), ROTR(x, 18), SHR(x, 3))
  }

  function S1(x: Word32): Word32 {
    Xor3(ROTR(x, 17), ROTR(x, 19), SHR(x, 10))
  }

  function S2(x: Word32): Word32 {
    Xor3(ROTR(x, 2), ROTR(x, 13), ROTR(x, 22))
  }

  function S3(x: Word32): Word32 {
    Xor3(ROTR(x, 6), ROTR(x, 11), ROTR(x, 25))
  }

  function F0Bits(x: bv32, y: bv32, z: bv32): bv32 {
    (x & y) | (z & (x | y))
  }

  function F1Bits(x: bv32, y: bv32, z: bv32): bv32 {
    z ^ (x & (y ^ z))
  }

  function F0(x: Word32, y: Word32, z: Word32): Word32 {
    W(F0Bits(x.bits, y.bits, z.bits))
  }

  function F1(x: Word32, y: Word32, z: Word32): Word32 {
    W(F1Bits(x.bits, y.bits, z.bits))
  }

  /** The majority and choice macros, with fewer operations, are those of the standard. */
  lemma MajBitsAgree(x: bv32, y: bv32, z: bv32)
    ensures F0Bits(x, y, z) == MajBits(x, y, z)
  {
    MajIdentity(x, y, z);
  }

  lemma ChBitsAgree(x: bv32, y: bv32, z: bv32)
    ensures F1Bits(x, y, z) == ChBits(x, y, z)
  {
    ChIdentity(x, y, z);
  }

  lemma MajIdentity(x: bv32, y: bv32, z: bv32)
    ensures (x & y) | (z & (x | y)) == (x & y) ^ (x & z) ^ (y & z)
  {
  }

  lemma ChIdentity(x: bv32, y: bv32, z: bv32)
    ensures z ^ (x & (y ^ z)) == (x & y) ^ (!x & z)
  {
  }

  lemma MajAgrees(x: Word32, y: Word32, z: Word32)
    ensures F0(x, y, z) == Maj(x, y, z)
  {
    hide F0Bits, MajBits;
    MajBitsAgree(x.bits, y.bits, z.bits);
  }

  lemma ChAgrees(x: Word32, y: Word32, z: Word32)
    ensures F1(x, y, z) == Ch(x, y, z)
  {
    hide F1Bits, ChBits;
    ChBitsAgree(x.bits, y.bits, z.bits);
  }

  lemma Rot2(x: Word32)
    ensures ROTR(x, 2) == RotR(x, 2)
  {
  }

  lemma Rot6(x: Word32)
    ensures ROTR(x, 6) == RotR(x, 6)
  {
  }

  lemma Rot7(x: Word32)
    ensures ROTR(x, 7) == RotR(x, 7)
  {
  }

  lemma Rot11(x: Word32)
    ensures ROTR(x, 11) == RotR(x, 11)
  {
  }

  lemma Rot13(x: Word32)
    ensures ROTR(x, 13) == RotR(x, 13)
  {
  }

  lemma Rot17(x: Word32)
    ensures ROTR(x, 17) == RotR(x, 17)
  {
  }

  lemma Rot18(x: Word32)
    ensures ROTR(x, 18) == RotR(x, 18)
  {
  }

  lemma Rot19(x: Word32)
    ensures ROTR(x, 19) == RotR(x, 19)
  {
  }

  lemma Rot22(x: Word32)
    ensures ROTR(x, 22) == RotR(x, 22)
  {
  }

  lemma Rot25(x: Word32)
    ensures ROTR(x, 25) == RotR(x, 25)
  {
  }

  lemma Shift3(x: Word32)
    ensures SHR(x, 3) == ShR(x, 3)
  {
  }

  lemma Shift10(x: Word32)
    ensures SHR(x, 10) == ShR(x, 10)
  {
  }

  /** The rotations by shifts are rotations. */
  lemma SigmasAgree(x: Word32)
    ensures S0(x) == SmallSigma0(x) && S1(x) == SmallSigma1(x)
    ensures S2(x) == BigSigma0(x) && S3(x) == BigSigma1(x)
  {
    hide ROTR, SHR, RotR, ShR, Xor3;
    Rot7(x); Rot18(x); Shift3(x);
    Rot17(x); Rot19(x); Shift10(x);
    Rot2(x); Rot13(x); Rot22(x);
    Rot6(x); Rot11(x); Rot25(x);
  }

  // ----- mbedtls_sha256_process

  /** The working variables as they lie in the array under a naming of its elements. */
  function View(A: seq<Word32>, a: nat, b: nat, c: nat, d: nat, e: nat, f: nat, g: nat, h: nat): Regs
    requires |A| == 8 && a < 8 && b < 8 && c < 8 && d < 8 && e < 8 && f < 8 && g < 8 && h < 8
  {
    Regs(A[a], A[b], A[c], A[d], A[e], A[f], A[g], A[h])
  }

  predicate Different(a: nat, b: nat, c: nat, d: nat, e: nat, f: nat, g: nat, h: nat) {
    && a < 8 && b < 8 && c < 8 && d < 8 && e < 8 && f < 8 && g < 8 && h < 8
    && a != b && a != c && a != d && a != e && a != f && a != g && a != h
    && b != c && b != d && b != e && b != f && b != g && b != h
    && c != d && c != e && c != f && c != g && c != h
    && d != e && d != f && d != g && d != h
    && e != f && e != g && e != h
    && f != g && f != h
    && g != h
  }

  /** P(a,b,c,d,e,f,g,h,x,K): two elements change, and under the naming shifted by one place the array
      holds the working variables of the next round. */
  method P(A: array<Word32>, a: nat, b: nat, c: nat, d: nat, e: nat, f: nat, g: nat, h: nat, x: Word32, k: Word32)
    requires A.Length == 8 && Different(a, b, c, d, e, f, g, h)
    modifies A
    ensures View(A[..], h, a, b, c, d, e, f, g) == Round(old(View(A[..], a, b, c, d, e, f, g, h)), k, x)
  {
    hide S0, S1, S2, S3, F0, F1, Ch, Maj, BigSigma0, BigSigma1, Add;
    var temp1 := Add(Add(Add(Add(A[h], S3(A[e])), F1(A[e], A[f], A[g])), k), x);
    var temp2 := Add(S2(A[a]), F0(A[a], A[b], A[c]));
    SigmasAgree(A[e]);
    SigmasAgree(A[a]);
    ChAgrees(A[e], A[f], A[g]);
    MajAgrees(A[a], A[b], A[c]);
    A[d] := Add(A[d], temp1);
    A[h] := Add(temp1, temp2);
  }

  /** The first i words of the schedule are in W. */
  ghost predicate Scheduled(W: seq<Word32>, block: seq<Word32>, i: nat) {
    |block| == 16 && |W| == 64 && i <= 64 && forall j :: 0 <= j < i ==> W[j] == Schedule(block, j)
  }

  /** R(t): extend the schedule in place. */
  method R(W: array<Word32>, ghost block: seq<Word32>, t: nat) returns (x: Word32)
    requires 16 <= t < 64 && Scheduled(W[..], block, t)
    modifies W
    ensures Scheduled(W[..], block, t + 1) && x == Schedule(block, t)
  {
    hide S0, S1, SmallSigma0, SmallSigma1, Add;
    assert W.Length == 64;
    assert W[t - 2] == W[..][t - 2] && W[t - 7] == W[..][t - 7] && W[t - 15] == W[..][t - 15]
           && W[t - 16] == W[..][t - 16];
    SigmasAgree(W[t - 2]);
    SigmasAgree(W[t - 15]);
    x := Add(Add(Add(S1(W[t - 2]), W[t - 7]), S0(W[t - 15])), W[t - 16]);
    ghost var w := W[..];
    W[t] := x;
    assert W[..] == w[t := x];
  }

  /** The first loop of either form. */
  method LoadState(state: array<Word32>) returns (A: array<Word32>)
    requires state.Length == 8
    ensures fresh(A) && A.Length == 8 && A[..] == state[..]
  {
    A := new Word32[8];
    for i := 0 to 8
      invariant A[..i] == state[..i]
    {
      A[i] := state[i];
    }
  }

  /** GET_UINT32_BE(W[i], data, 4 * i) */
  method Load(W: array<Word32>, data: seq<byte>, i: nat)
    requires |data| == 64 && i < 16 && Scheduled(W[..], BlockOf(data), i)
    modifies W
    ensures Scheduled(W[..], BlockOf(data), i + 1) && W.Length == 64 && W[i] == Schedule(BlockOf(data), i)
  {
    hide WordOf;
    ghost var w := W[..];
    W[i] := WordOf(data[4 * i], data[4 * i + 1], data[4 * i + 2], data[4 * i + 3]);
    assert W[..] == w[i := W[i]];
  }

  /** The last loop: the hash of the block is added in. */
  method AddBack(state: array<Word32>, A: array<Word32>, ghost block: seq<Word32>)
    requires state.Length == A.Length == 8 && state != A && |block| == 16
    requires View(A[..], 0, 1, 2, 3, 4, 5, 6, 7) == Rounds(block, FromHash(state[..]), 64)
    modifies state
    ensures state[..] == Compress(old(state[..]), block)
  {
    hide Rounds, Add, Compress;
    ghost var h := state[..];
    for i := 0 to 8
      invariant forall j :: 0 <= j < i ==> state[j] == Add(h[j], A[j])
      invariant forall j :: i <= j < 8 ==> state[j] == h[j]
    {
      state[i] := Add(state[i], A[i]);
    }
    Added(h, A[..], state[..], block);
  }

  lemma Added(h: seq<Word32>, A: seq<Word32>, s: seq<Word32>, block: seq<Word32>)
    requires |h| == |A| == |s| == 8 && |block| == 16
    requires View(A, 0, 1, 2, 3, 4, 5, 6, 7) == Rounds(block, FromHash(h), 64)
    requires forall j :: 0 <= j < 8 ==> s[j] == Add(h[j], A[j])
    ensures s == Compress(h, block)
  {
    hide Rounds, Add;
  }

  /** The rolled loop, which shifts the working variables after each round. */
  method ProcessRolled(state: array<Word32>, data: seq<byte>)
    requires state.Length == 8 && |data| == 64
    modifies state
    ensures state[..] == Compress(old(state[..]), BlockOf(data))
  {
    hide Round, Schedule, Rounds, Scheduled, Compress;
    ghost var block, r := BlockOf(data), FromHash(state[..]);
    var A := LoadState(state);
    var W := new Word32[64];
    NoneScheduled(W[..], block);
    NoRounds(block, r);
    for i := 0 to 64
      invariant state[..] == old(state[..]) && Scheduled(W[..], block, i)
      invariant View(A[..], 0, 1, 2, 3, 4, 5, 6, 7) == Rounds(block, r, i)
    {
      var x;
      if i < 16 {
        Load(W, data, i);
        x := W[i];
      } else {
        x := R(W, block, i);
      }
      P(A, 0, 1, 2, 3, 4, 5, 6, 7, x, Fips180.W(K[i]));
      NextRound(block, r, i);
      Shift(A);
    }
    AddBack(state, A, block);
  }

  /** temp1 = A[7]; A[7] = A[6]; ... A[0] = temp1 */
  method Shift(A: array<Word32>)
    requires A.Length == 8
    modifies A
    ensures View(A[..], 0, 1, 2, 3, 4, 5, 6, 7) == old(View(A[..], 7, 0, 1, 2, 3, 4, 5, 6))
  {
    var temp1 := A[7];
    A[7] := A[6];
    A[6] := A[5];
    A[5] := A[4];
    A[4] := A[3];
    A[3] := A[2];
    A[2] := A[1];
    A[1] := A[0];
    A[0] := temp1;
  }

  /** The body of the first unrolled loop: eight rounds in a row, by renaming the elements instead of
      moving them. */
  method EightRounds(A: array<Word32>, W: array<Word32>, i: nat, ghost block: seq<Word32>, ghost r: Regs)
    requires A.Length == 8 && A != W && i + 8 <= 16 && Scheduled(W[..], block, 16)
    requires View(A[..], 0, 1, 2, 3, 4, 5, 6, 7) == Rounds(block, r, i)
    modifies A
    ensures View(A[..], 0, 1, 2, 3, 4, 5, 6, 7) == Rounds(block, r, i + 8)
  {
    hide Round, Schedule, Rounds, Scheduled, View;
    InSchedule(W[..], block, i);
    P(A, 0, 1, 2, 3, 4, 5, 6, 7, W[i + 0], Fips180.W(K[i + 0]));
    NextRound(block, r, i);
    P(A, 7, 0, 1, 2, 3, 4, 5, 6, W[i + 1], Fips180.W(K[i + 1]));
    NextRound(block, r, i + 1);
    P(A, 6, 7, 0, 1, 2, 3, 4, 5, W[i + 2], Fips180.W(K[i + 2]));
    NextRound(block, r, i + 2);
    P(A, 5, 6, 7, 0, 1, 2, 3, 4, W[i + 3], Fips180.W(K[i + 3]));
    NextRound(block, r, i + 3);
    P(A, 4, 5, 6, 7, 0, 1, 2, 3, W[i + 4], Fips180.W(K[i + 4]));
    NextRound(block, r, i + 4);
    P(A, 3, 4, 5, 6, 7, 0, 1, 2, W[i + 5], Fips180.W(K[i + 5]));
    NextRound(block, r, i + 5);
    P(A, 2, 3, 4, 5, 6, 7, 0, 1, W[i + 6], Fips180.W(K[i + 6]));
    NextRound(block, r, i + 6);
    P(A, 1, 2, 3, 4, 5, 6, 7, 0, W[i + 7], Fips180.W(K[i + 7]));
    NextRound(block, r, i + 7);
  }

  /** The body of the second: the schedule is extended on the way. */
  method EightMoreRounds(A: array<Word32>, W: array<Word32>, i: nat, ghost block: seq<Word32>, ghost r: Regs)
    requires A.Length == 8 && A != W && 16 <= i && i + 8 <= 64 && Scheduled(W[..], block, i)
    requires View(A[..], 0, 1, 2, 3, 4, 5, 6, 7) == Rounds(block, r, i)
    modifies A, W
    ensures Scheduled(W[..], block, i + 8)
    ensures View(A[..], 0, 1, 2, 3, 4, 5, 6, 7) == Rounds(block, r, i + 8)
  {
    hide Round, Schedule, Rounds, Scheduled, View;
    ScheduleSize(W[..], block, i);
    var x := R(W, block, i + 0);
    P(A, 0, 1, 2, 3, 4, 5, 6, 7, x, Fips180.W(K[i + 0]));
    NextRound(block, r, i);
    x := R(W, block, i + 1);
    P(A, 7, 0, 1, 2, 3, 4, 5, 6, x, Fips180.W(K[i + 1]));
    NextRound(block, r, i + 1);
    x := R(W, block, i + 2);
    P(A, 6, 7, 0, 1, 2, 3, 4, 5, x, Fips180.W(K[i + 2]));
    NextRound(block, r, i + 2);
    x := R(W, block, i + 3);
    P(A, 5, 6, 7, 0, 1, 2, 3, 4, x, Fips180.W(K[i + 3]));
    NextRound(block, r, i + 3);
    x := R(W, block, i + 4);
    P(A, 4, 5, 6, 7, 0, 1, 2, 3, x, Fips180.W(K[i + 4]));
    NextRound(block, r, i + 4);
    x := R(W, block, i + 5);
    P(A, 3, 4, 5, 6, 7, 0, 1, 2, x, Fips180.W(K[i + 5]));
    NextRound(block, r, i + 5);
    x := R(W, block, i + 6);
    P(A, 2, 3, 4, 5, 6, 7, 0, 1, x, Fips180.W(K[i + 6]));
    NextRound(block, r, i + 6);
    x := R(W, block, i + 7);
    P(A, 1, 2, 3, 4, 5, 6, 7, 0, x, Fips180.W(K[i + 7]));
    NextRound(block, r, i + 7);
  }

  /** The unrolled form: the same result for every block. */
  method Process(state: array<Word32>, data: seq<byte>)
    requires state.Length == 8 && |data| == 64
    modifies state
    ensures state[..] == Compress(old(state[..]), BlockOf(data))
  {
    hide Round, Schedule, WordOf, Rounds, Scheduled, Compress, View;
    ghost var block, r := BlockOf(data), FromHash(state[..]);
    var A := LoadState(state);
    var W := new Word32[64];
    NoneScheduled(W[..], block);
    for i := 0 to 16
      invariant state[..] == old(state[..]) && A[..] == old(state[..]) && Scheduled(W[..], block, i)
    {
      Load(W, data, i);
    }
    NoRounds(block, r);
    ViewIs(A[..]);
    var i := 0;
    while i < 16
      invariant i == 0 || i == 8 || i == 16
      invariant state[..] == old(state[..]) && Scheduled(W[..], block, 16)
      invariant View(A[..], 0, 1, 2, 3, 4, 5, 6, 7) == Rounds(block, r, i)
    {
      EightRounds(A, W, i, block, r);
      i := i + 8;
    }
    while i < 64
      invariant 16 <= i <= 64 && i % 8 == 0
      invariant state[..] == old(state[..]) && Scheduled(W[..], block, i)
      invariant View(A[..], 0, 1, 2, 3, 4, 5, 6, 7) == Rounds(block, r, i)
    {
      EightMoreRounds(A, W, i, block, r);
      i := i + 8;
    }
    AddBack(state, A, block);
  }

  lemma ViewIs(A: seq<Word32>)
    requires |A| == 8
    ensures View(A, 0, 1, 2, 3, 4, 5, 6, 7) == FromHash(A)
  {
  }

  lemma NoneScheduled(W: seq<Word32>, block: seq<Word32>)
    requires |W| == 64 && |block| == 16
    ensures Scheduled(W, block, 0)
  {
  }

  lemma ScheduleSize(W: seq<Word32>, block: seq<Word32>, i: nat)
    requires Scheduled(W, block, i)
    ensures |block| == 16 && |K| == 64
  {
  }

  lemma NoRounds(block: seq<Word32>, r: Regs)
    requires |block| == 16
    ensures Rounds(block, r, 0) == r
  {
  }

  lemma InSchedule(W: seq<Word32>, block: seq<Word32>, i: nat)
    requires Scheduled(W, block, 16) && i + 8 <= 16
    ensures |W| == 64 && |block| == 16 && |K| == 64 && forall j :: i <= j < i + 8 ==> W[j] == Schedule(block, j)
  {
  }

  lemma NextRound(block: seq<Word32>, r: Regs, i: nat)
    requires |block| == 16 && i < 64
    ensures |K| == 64
    ensures Rounds(block, r, i + 1) == Round(Rounds(block, r, i), Fips180.W(K[i]), Schedule(block, i))
  {
    hide Round, Schedule;
  }
}
