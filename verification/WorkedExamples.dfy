/** The worked examples of FIPS 180-2, appendix B. They fix what no law of the hash can, such as the amounts of its
    rotations and the order of its bytes. */
module WorkedExamples {
  import opened Fips180
  import opened Sha256

  // ----- appendix B.1: "abc"

  const ABC: seq<byte> := [0x61, 0x62, 0x63]

  function AbcBlock(): (block: seq<Word32>)
    ensures |block| == 16
  {
    [W(0x61626380), W(0), W(0), W(0), W(0), W(0), W(0), W(0), W(0), W(0), W(0), W(0), W(0), W(0), W(0), W(0x18)]
  }

  /** The message is one block. */
  lemma AbcPadded()
    ensures |Pad(ABC)| == 64 && BlockOf(Pad(ABC)) == AbcBlock()
  {
    hide WordOf, Pad;
    AbcBytes();
    var m := Pad(ABC);
    Words();
    assert m[0] == 0x61 && m[1] == 0x62 && m[2] == 0x63 && m[3] == 0x80;
    forall t | 0 <= t < 16
      ensures BlockOf(m)[t] == AbcBlock()[t]
    {
      assert BlockOf(m)[t] == WordOf(m[4 * t], m[4 * t + 1], m[4 * t + 2], m[4 * t + 3]);
    }
  }

  lemma AbcBytes()
    ensures |Pad(ABC)| == 64 && Pad(ABC)[..4] == [0x61, 0x62, 0x63, 0x80] && Pad(ABC)[63] == 0x18
    ensures forall i :: 4 <= i < 63 ==> Pad(ABC)[i] == 0
  {
    assert ZeroCount(3) == 52;
    assert Pad(ABC) == [0x61, 0x62, 0x63, 0x80] + Zeros(52) + Bytes64(24);
  }

  lemma Words()
    ensures WordOf(0x61, 0x62, 0x63, 0x80) == W(0x61626380)
    ensures WordOf(0, 0, 0, 0) == W(0) && WordOf(0, 0, 0, 0x18) == W(0x18)
  {
  }

  /** A turn of step 3 with the macros of the code, whose shifts the solver can carry out. */
  function Turn(r: Regs, k: Word32, w: Word32): Regs {
    var t1 := Add(Add(Add(Add(r.h, S3(r.e)), F1(r.e, r.f, r.g)), k), w);
    var t2 := Add(S2(r.a), F0(r.a, r.b, r.c));
    Regs(Add(t1, t2), r.a, r.b, r.c, Add(r.d, t1), r.e, r.f, r.g)
  }

  lemma TurnIs(r: Regs, k: Word32, w: Word32)
    ensures Turn(r, k, w) == Round(r, k, w)
  {
    hide S2, S3, F0, F1, BigSigma0, BigSigma1, Ch, Maj, Add;
    SigmasAgree(r.a);
    SigmasAgree(r.e);
    ChAgrees(r.e, r.f, r.g);
    MajAgrees(r.a, r.b, r.c);
  }

  lemma FirstTurn()
    ensures Turn(Regs(W(0x6A09E667), W(0xBB67AE85), W(0x3C6EF372), W(0xA54FF53A),
                      W(0x510E527F), W(0x9B05688C), W(0x1F83D9AB), W(0x5BE0CD19)),
                 W(0x428A2F98), W(0x61626380))
            == Regs(W(0x5D6AEBCD), W(0x6A09E667), W(0xBB67AE85), W(0x3C6EF372),
                    W(0xFA2A4622), W(0x510E527F), W(0x9B05688C), W(0x1F83D9AB))
  {
  }

  lemma SecondTurn()
    ensures Turn(Regs(W(0x5D6AEBCD), W(0x6A09E667), W(0xBB67AE85), W(0x3C6EF372),
                      W(0xFA2A4622), W(0x510E527F), W(0x9B05688C), W(0x1F83D9AB)),
                 W(0x71374491), W(0))
            == Regs(W(0x5A6AD9AD), W(0x5D6AEBCD), W(0x6A09E667), W(0xBB67AE85),
                    W(0x78CE7989), W(0xFA2A4622), W(0x510E527F), W(0x9B05688C))
  {
  }

  /** The first two rows of the example's table. */
  lemma AbcTurns()
    ensures Rounds(AbcBlock(), FromHash(InitialHash(false)), 1)
            == Regs(W(0x5D6AEBCD), W(0x6A09E667), W(0xBB67AE85), W(0x3C6EF372),
                    W(0xFA2A4622), W(0x510E527F), W(0x9B05688C), W(0x1F83D9AB))
    ensures Rounds(AbcBlock(), FromHash(InitialHash(false)), 2)
            == Regs(W(0x5A6AD9AD), W(0x5D6AEBCD), W(0x6A09E667), W(0xBB67AE85),
                    W(0x78CE7989), W(0xFA2A4622), W(0x510E527F), W(0x9B05688C))
  {
    hide Turn, Round;
    FirstTurn();
    SecondTurn();
    var r, block := FromHash(InitialHash(false)), AbcBlock();
    RowIs();
    assert Rounds(block, r, 0) == r;
    TurnIs(r, W(K[0]), Schedule(block, 0));
    TurnIs(Rounds(block, r, 1), W(K[1]), Schedule(block, 1));
  }

  lemma RowIs()
    ensures |K| == 64 && K[0] == 0x428A2F98 && K[1] == 0x71374491
  {
    assert K[0] == KRow(0)[0] && K[1] == KRow(0)[1];
  }

  /** From the last row of the table: the intermediate hash, and the digest. */
  lemma AbcDigest()
    requires Rounds(AbcBlock(), FromHash(InitialHash(false)), 64)
             == Regs(W(0x506E3058), W(0xD39A2165), W(0x04D24D6C), W(0xB85E2CE9),
                     W(0x5EF50F24), W(0xFB121210), W(0x948D25B6), W(0x961F4894))
    ensures Digest(ABC, false)
            == [0xBA, 0x78, 0x16, 0xBF, 0x8F, 0x01, 0xCF, 0xEA, 0x41, 0x41, 0x40, 0xDE, 0x5D, 0xAE, 0x22, 0x23,
                0xB0, 0x03, 0x61, 0xA3, 0x96, 0x17, 0x7A, 0x9C, 0xB4, 0x10, 0xFF, 0x61, 0xF2, 0x00, 0x15, 0xAD]
  {
    hide Rounds, InitialHash, BlockOf, Pad, WordOf, Add, Compress, BytesOf, DigestOf;
    AbcPadded();
    var m, h := Pad(ABC), InitialHash(false);
    assert m[..64] == m && m[64..] == [];
    AddedBack();
    assert Fold(h, m) == AbcHash();
    AbcOutput();
  }

  function AbcHash(): seq<Word32> {
    [W(0xBA7816BF), W(0x8F01CFEA), W(0x414140DE), W(0x5DAE2223),
     W(0xB00361A3), W(0x96177A9C), W(0xB410FF61), W(0xF20015AD)]
  }

  lemma AddedBack()
    requires Rounds(AbcBlock(), FromHash(InitialHash(false)), 64)
             == Regs(W(0x506E3058), W(0xD39A2165), W(0x04D24D6C), W(0xB85E2CE9),
                     W(0x5EF50F24), W(0xFB121210), W(0x948D25B6), W(0x961F4894))
    ensures Compress(InitialHash(false), AbcBlock()) == AbcHash()
  {
    hide Rounds;
  }

  lemma AbcOutput()
    ensures DigestOf(AbcHash(), 8)
            == [0xBA, 0x78, 0x16, 0xBF, 0x8F, 0x01, 0xCF, 0xEA, 0x41, 0x41, 0x40, 0xDE, 0x5D, 0xAE, 0x22, 0x23,
                0xB0, 0x03, 0x61, 0xA3, 0x96, 0x17, 0x7A, 0x9C, 0xB4, 0x10, 0xFF, 0x61, 0xF2, 0x00, 0x15, 0xAD]
  {
    hide BytesOf;
    AbcBytesOut();
  }

  lemma AbcBytesOut()
    ensures BytesOf(W(0xBA7816BF)) == [0xBA, 0x78, 0x16, 0xBF]
    ensures BytesOf(W(0x8F01CFEA)) == [0x8F, 0x01, 0xCF, 0xEA]
    ensures BytesOf(W(0x414140DE)) == [0x41, 0x41, 0x40, 0xDE]
    ensures BytesOf(W(0x5DAE2223)) == [0x5D, 0xAE, 0x22, 0x23]
    ensures BytesOf(W(0xB00361A3)) == [0xB0, 0x03, 0x61, 0xA3]
    ensures BytesOf(W(0x96177A9C)) == [0x96, 0x17, 0x7A, 0x9C]
    ensures BytesOf(W(0xB410FF61)) == [0xB4, 0x10, 0xFF, 0x61]
    ensures BytesOf(W(0xF20015AD)) == [0xF2, 0x00, 0x15, 0xAD]
  {
  }

  // ----- appendix B.2

  function SecondBlock(): (block: seq<Word32>)
    ensures |block| == 16
  {
    [W(0x61626364), W(0x62636465), W(0x63646566), W(0x64656667),
     W(0x65666768), W(0x66676869), W(0x6768696A), W(0x68696A6B),
     W(0x696A6B6C), W(0x6A6B6C6D), W(0x6B6C6D6E), W(0x6C6D6E6F),
     W(0x6D6E6F70), W(0x6E6F7071), W(0x80000000), W(0x00000000)]
  }

  /** The first word of the schedule that is not of the message. */
  lemma ScheduleGoesOn()
    ensures Schedule(SecondBlock(), 16) == W(0xEB8012AD)
  {
    hide *;
    var b := SecondBlock();
    SecondWords();
    NextWord(b);
    SigmasAgree(b[14]);
    SigmasAgree(b[1]);
    Sums();
  }

  lemma NextWord(block: seq<Word32>)
    requires |block| == 16
    ensures Schedule(block, 16)
            == Add(Add(Add(SmallSigma1(block[14]), block[9]), SmallSigma0(block[1])), block[0])
  {
    hide SmallSigma0, SmallSigma1, Add;
  }

  lemma SecondWords()
    ensures SecondBlock()[14] == W(0x80000000) && SecondBlock()[9] == W(0x6A6B6C6D)
    ensures SecondBlock()[1] == W(0x62636465) && SecondBlock()[0] == W(0x61626364)
  {
  }

  lemma Sums()
    ensures S1(W(0x80000000)) == W(0x00205000) && S0(W(0x62636465)) == W(0x1F91F2DC)
    ensures Add(Add(Add(W(0x00205000), W(0x6A6B6C6D)), W(0x1F91F2DC)), W(0x61626364)) == W(0xEB8012AD)
  {
  }
}
