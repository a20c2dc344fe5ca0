/** The streaming interface of sha256.c: any way of cutting a message into pieces gives its digest. */
module Sha256Stream {
  import opened Fips180
  import opened Products
  import Sha256
  import opened Words

  const TWO64: nat := 0x1_0000_0000_0000_0000

  function Padding(): (s: seq<byte>)
    ensures |s| == 64
  {
    [0x80] + Zeros(63)
  }

  /** PUT_UINT32_BE of a number. */
  function PutInt(n: word): (s: seq<byte>)
    ensures |s| == 4
  {
    [n / 0x100_0000 % 256, n / 0x1_0000 % 256, n / 0x100 % 256, n % 256]
  }

  // ----- arithmetic of the counter and the length field

  function Counter(total0: word, total1: word): nat {
    total1 * 0x1_0000_0000 + total0
  }

  /** The carry found by comparison keeps the two words the number of bytes modulo 2^64. */
  lemma CounterStep(total0: word, total1: word, n: nat, ilen: word)
    requires Counter(total0, total1) == n % TWO64
    ensures var t0 := U32(total0 + ilen);
            Counter(t0, if t0 < ilen then U32(total1 + 1) else total1) == (n + ilen) % TWO64
  {
    WrapsOnce(total0 + ilen);
    WrapsOnce(total1 + 1);
    hide U32;
    var q, t0 := n / TWO64, U32(total0 + ilen);
    assert n == q * TWO64 + Counter(total0, total1);
    if total0 + ilen < 0x1_0000_0000 {
      UniqueQuotient(n + ilen, TWO64, q, Counter(t0, total1));
    } else if total1 < 0xffff_ffff {
      UniqueQuotient(n + ilen, TWO64, q, Counter(t0, total1 + 1));
    } else {
      UniqueQuotient(n + ilen, TWO64, q + 1, Counter(t0, 0));
    }
  }

  lemma WrapsOnce(x: nat)
    requires x < 0x2_0000_0000
    ensures U32(x) == if x < 0x1_0000_0000 then x else x - 0x1_0000_0000
  {
  }

  lemma LeftIs(total0: word, total1: word, n: nat)
    requires Counter(total0, total1) == n % TWO64
    ensures total0 % 64 == n % 64
  {
    var q := n / TWO64;
    assert n == q * TWO64 + n % TWO64;
    var r, c := total0 % 64, total0 / 64;
    assert n == (q * 0x400_0000_0000_0000 + total1 * 0x400_0000 + c) * 64 + r;
    UniqueQuotient(n, 64, q * 0x400_0000_0000_0000 + total1 * 0x400_0000 + c, r);
  }

  /** The two words of the length field are the number of bits modulo 2^64. */
  lemma LengthField(total0: word, total1: word, n: nat)
    requires Counter(total0, total1) == n % TWO64
    ensures U32(total1 * 8) % 8 == 0 && total0 / 0x2000_0000 < 8
    ensures Or(U32(total1 * 8), total0 / 0x2000_0000, 8) < 0x1_0000_0000
    ensures Counter(U32(total0 * 8), Or(U32(total1 * 8), total0 / 0x2000_0000, 8)) == 8 * n % TWO64
  {
    var q := n / TWO64;
    assert n == q * TWO64 + n % TWO64;
    var q0, q1 := total0 / 0x2000_0000, total1 / 0x2000_0000;
    assert total0 * 8 == q0 * 0x1_0000_0000 + U32(total0 * 8);
    assert total1 * 8 == q1 * 0x1_0000_0000 + U32(total1 * 8);
    UniqueQuotient(8 * n, TWO64, 8 * q + q1, Counter(U32(total0 * 8), Or(U32(total1 * 8), q0, 8)));
  }

  lemma FieldBytes(high: word, low: word)
    ensures PutInt(high) + PutInt(low) == Bytes64(Counter(low, high))
  {
    HighBytes(high, low);
    LowBytes(high, low);
  }

  lemma HighBytes(high: word, low: word)
    ensures var x := Counter(low, high);
            && x / 0x100_0000_0000_0000 == high / 0x100_0000 && x / 0x1_0000_0000_0000 == high / 0x1_0000
            && x / 0x100_0000_0000 == high / 0x100 && x / 0x1_0000_0000 == high
  {
    var x := Counter(low, high);
    UniqueQuotient(x, 0x1_0000_0000, high, low);
    UniqueQuotient(x, 0x100_0000_0000, high / 0x100, high % 0x100 * 0x1_0000_0000 + low);
    UniqueQuotient(x, 0x1_0000_0000_0000, high / 0x1_0000, high % 0x1_0000 * 0x1_0000_0000 + low);
    UniqueQuotient(x, 0x100_0000_0000_0000, high / 0x100_0000, high % 0x100_0000 * 0x1_0000_0000 + low);
  }

  lemma LowBytes(high: word, low: word)
    ensures var x := Counter(low, high);
            && x / 0x100_0000 % 256 == low / 0x100_0000 % 256 && x / 0x1_0000 % 256 == low / 0x1_0000 % 256
            && x / 0x100 % 256 == low / 0x100 % 256 && x % 256 == low % 256
  {
    var x := Counter(low, high);
    UniqueQuotient(x, 0x100_0000, high * 0x100 + low / 0x100_0000, low % 0x100_0000);
    UniqueQuotient(x, 0x1_0000, high * 0x1_0000 + low / 0x1_0000, low % 0x1_0000);
    UniqueQuotient(x, 0x100, high * 0x100_0000 + low / 0x100, low % 0x100);
    LowByte(high, low / 0x100_0000);
    LowByte(high * 0x100, low / 0x1_0000);
    LowByte(high * 0x1_0000, low / 0x100);
    LowByte(high * 0x100_0000, low);
  }

  lemma LowByte(h: nat, l: nat)
    ensures (h * 0x100 + l) % 256 == l % 256
  {
    UniqueQuotient(h * 0x100 + l, 256, h + l / 256, l % 256);
  }

  lemma FoldOne(h: seq<Word32>, block: seq<byte>)
    requires |h| == 8 && |block| == 64
    ensures Fold(h, block) == Compress(h, BlockOf(block))
  {
    hide Compress, BlockOf;
    assert block[..64] == block && block[64..] == [];
  }

  lemma FoldNone(h: seq<Word32>)
    requires |h| == 8
    ensures Fold(h, []) == h
  {
  }

  /** One more block goes into the hash. */
  lemma FoldStep(h: seq<Word32>, done: seq<byte>, block: seq<byte>)
    requires |h| == 8 && |done| % 64 == 0 && |block| == 64
    ensures Fold(h, done + block) == Compress(Fold(h, done), BlockOf(block)) && |done + block| % 64 == 0
  {
    hide Compress, BlockOf, Fold;
    FoldAppend(h, done, block);
    FoldOne(Fold(h, done), block);
  }

  // ----- the context

  /** memcpy(to + at, from + start, n) */
  method MemCopy(to: array<byte>, at: nat, from: seq<byte>, start: nat, n: nat)
    requires at + n <= to.Length && start + n <= |from|
    modifies to
    ensures to[..] == old(to[..at]) + from[start..start + n] + old(to[at + n..])
  {
    for i := 0 to n
      invariant forall j :: 0 <= j < at || at + i <= j < to.Length ==> to[j] == old(to[j])
      invariant forall j :: at <= j < at + i ==> to[j] == from[start + j - at]
    {
      to[at + i] := from[start + i];
    }
  }

  class Context {
    var total0: word
    var total1: word
    const state: array<Word32>
    const buffer: array<byte>
    var is224: bool
    /** All bytes taken in since starts, and those of them that have gone through process. */
    ghost var absorbed: seq<byte>
    ghost var done: seq<byte>

    /** The counter is the number of bytes modulo 2^64, the hash is that of the whole blocks, and the
        buffer begins with the rest. */
    ghost predicate Valid() reads this, state, buffer {
      && state.Length == 8 && buffer.Length == 64
      && Counter(total0, total1) == |absorbed| % TWO64
      && Tail(absorbed, done, buffer[..])
      && state[..] == Fold(InitialHash(is224), done)
    }

    constructor ()
      ensures fresh(state) && fresh(buffer) && state.Length == 8 && buffer.Length == 64
    {
      state, buffer := new Word32[8], new byte[64];
      total0, total1, is224, absorbed, done := 0, 0, false, [], [];
    }

    /** mbedtls_sha256_starts, whatever the context was used for before. */
    method Starts(is224: bool)
      requires state.Length == 8 && buffer.Length == 64
      modifies this, state
      ensures Valid() && absorbed == [] && this.is224 == is224
    {
      hide Fold, Tail, Counter;
      total0, total1 := 0, 0;
      if !is224 {
        state[0], state[1], state[2], state[3] := W(0x6A09E667), W(0xBB67AE85), W(0x3C6EF372), W(0xA54FF53A);
        state[4], state[5], state[6], state[7] := W(0x510E527F), W(0x9B05688C), W(0x1F83D9AB), W(0x5BE0CD19);
      } else {
        state[0], state[1], state[2], state[3] := W(0xC1059ED8), W(0x367CD507), W(0x3070DD17), W(0xF70E5939);
        state[4], state[5], state[6], state[7] := W(0xFFC00B31), W(0x68581511), W(0x64F98FA7), W(0xBEFA4FA4);
      }
      this.is224 := is224;
      absorbed, done := [], [];
      FoldNone(InitialHash(is224));
      NothingYet(buffer[..]);
      assert state[..] == InitialHash(is224);
    }

    lemma OpenValid()
      requires Valid()
      ensures state.Length == 8 && buffer.Length == 64 && Counter(total0, total1) == |absorbed| % TWO64
      ensures Tail(absorbed, done, buffer[..]) && state[..] == Fold(InitialHash(is224), done)
    {
    }

    lemma CloseValid()
      requires state.Length == 8 && buffer.Length == 64 && Counter(total0, total1) == |absorbed| % TWO64
      requires Tail(absorbed, done, buffer[..]) && state[..] == Fold(InitialHash(is224), done)
      ensures Valid()
    {
    }

    /** One block goes through process. */
    method OneBlock(block: seq<byte>)
      requires state.Length == 8 && |block| == 64 && |done| % 64 == 0 && state[..] == Fold(InitialHash(is224), done)
      modifies this`done, state
      ensures done == old(done) + block && |done| % 64 == 0 && state[..] == Fold(InitialHash(is224), done)
    {
      hide Compress, BlockOf, Fold, InitialHash;
      FoldStep(InitialHash(is224), done, block);
      Sha256.Process(state, block);
      done := done + block;
    }

    /** The loop of update over whole blocks of the input. */
    method Blocks(input: seq<byte>, at0: nat) returns (at: nat)
      requires state.Length == 8 && at0 <= |input| && |done| % 64 == 0 && state[..] == Fold(InitialHash(is224), done)
      modifies this`done, state
      ensures at0 <= at <= |input| < at + 64 && (|input| - at0 < 64 ==> at == at0)
      ensures done == old(done) + input[at0..at] && |done| % 64 == 0 && state[..] == Fold(InitialHash(is224), done)
    {
      hide Fold, InitialHash;
      at := at0;
      while |input| - at >= 64
        invariant at0 <= at <= |input| && |done| % 64 == 0 && state[..] == Fold(InitialHash(is224), done)
        invariant done == old(done) + input[at0..at] && (|input| - at0 < 64 ==> at == at0)
      {
        OneBlock(input[at..at + 64]);
        SliceJoin(input, at0, at, at + 64);
        at := at + 64;
      }
    }

    /** The counter goes up by the length of the input. */
    method Count(ilen: word)
      requires Counter(total0, total1) == |absorbed| % TWO64
      modifies this`total0, this`total1
      ensures Counter(total0, total1) == (|absorbed| + ilen) % TWO64
    {
      CounterStep(total0, total1, |absorbed|, ilen);
      hide Counter;
      total0 := U32(total0 + ilen);
      if total0 < ilen {
        total1 := U32(total1 + 1);
      }
    }

    /** The first branch of update: the input fills the buffer, and that block is done. */
    method FillUp(input: seq<byte>, left: nat)
      requires state.Length == 8 && buffer.Length == 64 && state[..] == Fold(InitialHash(is224), done)
      requires Tail(absorbed, done, buffer[..]) && 0 < left == |absorbed| - |done| && 64 - left <= |input|
      modifies this`done, state, buffer
      ensures done == absorbed + input[..64 - left] && |done| % 64 == 0 && state[..] == Fold(InitialHash(is224), done)
    {
      hide Fold, InitialHash, Tail;
      UnfoldTail(absorbed, done, buffer[..]);
      ghost var buffer0 := buffer[..];
      MemCopy(buffer, left, input, 0, 64 - left);
      Filled(absorbed, done, buffer0, buffer[..], input, left);
      OneBlock(buffer[..]);
    }

    /** The last branch of update: what is less than a block stays in the buffer. */
    method Keep(input: seq<byte>, at: nat, left: nat)
      requires buffer.Length == 64 && at <= |input| && left + |input| - at < 64
      modifies buffer
      ensures buffer[..] == old(buffer[..left]) + input[at..] + old(buffer[left + |input| - at..])
    {
      if at < |input| {
        MemCopy(buffer, left, input, at, |input| - at);
      }
    }

    /** mbedtls_sha256_update. An input that does not fill up a partly filled buffer takes neither the
        first branch nor the loop. */
    method Update(input: seq<byte>)
      requires Valid() && |input| < 0x1_0000_0000
      modifies this`total0, this`total1, this`absorbed, this`done, state, buffer
      ensures Valid() && absorbed == old(absorbed) + input
    {
      hide *;
      OpenValid();
      if |input| == 0 {
        assert old(absorbed) + input == absorbed;
        return;
      }
      LeftIs(total0, total1, |absorbed|);
      UnfoldTail(absorbed, done, buffer[..]);
      var left: nat := total0 % 64;
      Count(|input|);
      if left > 0 && |input| < 64 - left {
        ghost var buffer0 := buffer[..];
        Keep(input, 0, left);
        MoreRest(absorbed, done, buffer0, buffer[..], input, left);
      } else {
        var at := 0;
        if left > 0 {
          FillUp(input, left);
          at, left := 64 - left, 0;
        } else {
          NothingLeft(absorbed, done, buffer[..], input);
        }
        ghost var done1, at1 := done, at;
        at := Blocks(input, at);
        Keep(input, at, 0);
        AfterBlocks(absorbed, done1, done, buffer[..], input, at1, at);
      }
      absorbed := absorbed + input;
      CloseValid();
    }

    /** The first part of finish: the padding and the length go in. */
    method TakePadding()
      requires Valid()
      modifies this, state, buffer
      ensures Valid() && absorbed == done == Pad(old(absorbed)) && is224 == old(is224)
    {
      hide Fold, InitialHash, Counter, Tail, Or, PutInt, Bytes64, Padding, ZeroCount, U32;
      ghost var n := |absorbed|;
      LengthField(total0, total1, n);
      LeftIs(total0, total1, n);
      var high: word := Or(U32(total1 * 8), total0 / 0x2000_0000, 8);
      var low: word := U32(total0 * 8);
      var msglen := PutInt(high) + PutInt(low);
      FieldBytes(high, low);
      var last: nat := total0 % 64;
      var padn := if last < 56 then 56 - last else 120 - last;
      assert 1 <= padn <= 64;
      PaddingIs(n, padn);
      Update(Padding()[..padn]);
      Update(msglen);
      PadLength(old(absorbed));
      AllDone();
    }

    /** The second part: the words of the hash go out. */
    method PutDigest(output: array<byte>)
      requires state.Length == 8 && output.Length == 32
      modifies output
      ensures output[..] == DigestOf(state[..], if is224 then 7 else 8) + (if is224 then old(output[28..]) else [])
    {
      hide BytesOf;
      ghost var h := state[..];
      DigestStep(h, 0);
      PutWord(output, state[0], 0);
      DigestStep(h, 1);
      PutWord(output, state[1], 4);
      DigestStep(h, 2);
      PutWord(output, state[2], 8);
      DigestStep(h, 3);
      PutWord(output, state[3], 12);
      DigestStep(h, 4);
      PutWord(output, state[4], 16);
      DigestStep(h, 5);
      PutWord(output, state[5], 20);
      DigestStep(h, 6);
      PutWord(output, state[6], 24);
      assert output[28..] == old(output[28..]);
      assert output[..] == output[..28] + output[28..];
      if !is224 {
        DigestStep(h, 7);
        PutWord(output, state[7], 28);
        assert output[..] == output[..32];
      }
    }

    /** mbedtls_sha256_finish: the digest of all bytes taken in. For SHA-224 the last word of the output
        is left as it was. */
    method Finish(output: array<byte>)
      requires Valid() && output.Length == 32 && output != buffer
      modifies this, state, buffer, output
      ensures output[..] == Digest(old(absorbed), old(is224)) + (if old(is224) then old(output[28..]) else [])
    {
      hide Fold, InitialHash, Counter, Tail, DigestOf;
      TakePadding();
      PutDigest(output);
    }

    /** With whole blocks taken in, nothing is left in the buffer. */
    lemma AllDone()
      requires Valid() && |absorbed| % 64 == 0
      ensures done == absorbed
    {
      UnfoldTail(absorbed, done, buffer[..]);
    }
  }

  /** PUT_UINT32_BE(w, output, at) */
  method PutWord(output: array<byte>, w: Word32, at: nat)
    requires at + 4 <= output.Length
    modifies output
    ensures output[..at + 4] == old(output[..at]) + BytesOf(w)
    ensures forall j :: at + 4 <= j < output.Length ==> output[j] == old(output[j])
  {
    var b := BytesOf(w);
    output[at], output[at + 1], output[at + 2], output[at + 3] := b[0], b[1], b[2], b[3];
  }

  lemma DigestStep(h: seq<Word32>, n: nat)
    requires n < |h|
    ensures DigestOf(h, n + 1) == DigestOf(h, n) + BytesOf(h[n]) && |DigestOf(h, n)| == 4 * n
  {
    if n > 0 {
      DigestStep(h, n - 1);
    }
  }

  /** The bytes of the padding that finish takes are those of the standard. */
  lemma PaddingIs(n: nat, padn: nat)
    requires padn == if n % 64 < 56 then 56 - n % 64 else 120 - n % 64
    ensures 1 <= padn <= 64 && Padding()[..padn] == [0x80] + Zeros(ZeroCount(n))
  {
  }

  /** mbedtls_sha256 */
  method Hash(input: seq<byte>, output: array<byte>, is224: bool)
    requires |input| < 0x1_0000_0000 && output.Length == 32
    modifies output
    ensures output[..] == Digest(input, is224) + (if is224 then old(output[28..]) else [])
  {
    hide Digest;
    var ctx := new Context();
    ctx.Starts(is224);
    ctx.Update(input);
    assert [] + input == input;
    ctx.Finish(output);
  }

  function Concat(pieces: seq<seq<byte>>): seq<byte> {
    if pieces == [] then [] else Concat(pieces[..|pieces| - 1]) + pieces[|pieces| - 1]
  }

  /** Any way of cutting a message into pieces gives the digest of the message, whatever the context was
      used for before. */
  method HashPieces(ctx: Context, pieces: seq<seq<byte>>, output: array<byte>, is224: bool)
    requires ctx.state.Length == 8 && ctx.buffer.Length == 64 && output.Length == 32 && output != ctx.buffer
    requires forall i :: 0 <= i < |pieces| ==> |pieces[i]| < 0x1_0000_0000
    modifies ctx, ctx.state, ctx.buffer, output
    ensures output[..] == Digest(Concat(pieces), is224) + (if is224 then old(output[28..]) else [])
  {
    hide Digest;
    ctx.Starts(is224);
    for i := 0 to |pieces|
      invariant ctx.Valid() && ctx.absorbed == Concat(pieces[..i]) && ctx.is224 == is224
      invariant output[..] == old(output[..])
    {
      assert pieces[..i + 1][..i] == pieces[..i];
      ctx.Update(pieces[i]);
    }
    assert pieces[..|pieces|] == pieces;
    ctx.Finish(output);
  }

  /** The bytes taken in are those that went through process, which are whole blocks, and the beginning
      of the buffer. */
  ghost predicate Tail(absorbed: seq<byte>, done: seq<byte>, buffer: seq<byte>) {
    && |buffer| == 64 && |done| % 64 == 0 && |done| <= |absorbed| < |done| + 64
    && absorbed == done + buffer[..|absorbed| - |done|]
  }

  lemma NothingYet(buffer: seq<byte>)
    requires |buffer| == 64
    ensures Tail([], [], buffer) && Counter(0, 0) == 0 % TWO64
  {
  }

  lemma UnfoldTail(absorbed: seq<byte>, done: seq<byte>, buffer: seq<byte>)
    requires Tail(absorbed, done, buffer)
    ensures |buffer| == 64 && |done| % 64 == 0 && |absorbed| % 64 == |absorbed| - |done|
  {
    RestIs(|absorbed|, |done|);
  }

  lemma Filled(absorbed: seq<byte>, done: seq<byte>, buffer0: seq<byte>, buffer: seq<byte>, input: seq<byte>, left: nat)
    requires Tail(absorbed, done, buffer0) && left == |absorbed| - |done| && 64 - left <= |input|
    requires buffer == buffer0[..left] + input[0..64 - left] + buffer0[64..]
    ensures done + buffer == absorbed + input[..64 - left]
  {
  }

  lemma NothingLeft(absorbed: seq<byte>, done: seq<byte>, buffer: seq<byte>, input: seq<byte>)
    requires Tail(absorbed, done, buffer) && |absorbed| == |done|
    ensures done == absorbed + input[..0]
  {
  }

  lemma AfterBlocks(absorbed: seq<byte>, done1: seq<byte>, done: seq<byte>, buffer: seq<byte>, input: seq<byte>,
                    at1: nat, at: nat)
    requires at1 <= at <= |input| < at + 64 && |buffer| == 64 && |done| % 64 == 0
    requires done1 == absorbed + input[..at1] && done == done1 + input[at1..at]
    requires at < |input| ==> buffer[..|input| - at] == input[at..]
    ensures Tail(absorbed + input, done, buffer)
  {
    SliceJoin(input, 0, at1, at);
    SliceJoin(input, 0, at, |input|);
    assert done == absorbed + input[..at];
    assert buffer[..|input| - at] == input[at..];
    assert absorbed + input == done + input[at..];
  }

  lemma MoreRest(absorbed: seq<byte>, done: seq<byte>, buffer0: seq<byte>, buffer: seq<byte>, input: seq<byte>,
                 left: nat)
    requires Tail(absorbed, done, buffer0) && left == |absorbed| - |done| && left + |input| < 64
    requires buffer == buffer0[..left] + input[0..] + buffer0[left + |input| - 0..]
    ensures Tail(absorbed + input, done, buffer)
  {
  }

  lemma SliceJoin(s: seq<byte>, a: nat, b: nat, c: nat)
    requires a <= b <= c <= |s|
    ensures s[a..c] == s[a..b] + s[b..c]
  {
  }

  lemma RestIs(n: nat, m: nat)
    requires m % 64 == 0 && m <= n < m + 64
    ensures n % 64 == n - m
  {
  }
}
