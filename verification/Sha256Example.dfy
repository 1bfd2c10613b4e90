/** A known answer, worked out word by word and round by round: the built-in account of
    sql/schema.sql:114-119 has the password admin123 and the salt 1723700000. Texts are given by their
    ASCII codes. */
module Sha256Example {
  import opened Sha256Spec
  import opened Sha256
  import opened Password

  const PASSWORD: seq<Byte> := [0x61, 0x64, 0x6d, 0x69, 0x6e, 0x31, 0x32, 0x33]
  const SALT: seq<Byte> := [0x31, 0x37, 0x32, 0x33, 0x37, 0x30, 0x30, 0x30, 0x30, 0x30]

  /** The stored digest 88259063 92100d86 acd2332e 7c0d5e40 16ea2923 fcdb3471 2218b03f 5dca71f1. */
  const HEX0: seq<Byte> := [0x38, 0x38, 0x32, 0x35, 0x39, 0x30, 0x36, 0x33]
  const HEX1: seq<Byte> := [0x39, 0x32, 0x31, 0x30, 0x30, 0x64, 0x38, 0x36]
  const HEX2: seq<Byte> := [0x61, 0x63, 0x64, 0x32, 0x33, 0x33, 0x32, 0x65]
  const HEX3: seq<Byte> := [0x37, 0x63, 0x30, 0x64, 0x35, 0x65, 0x34, 0x30]
  const HEX4: seq<Byte> := [0x31, 0x36, 0x65, 0x61, 0x32, 0x39, 0x32, 0x33]
  const HEX5: seq<Byte> := [0x66, 0x63, 0x64, 0x62, 0x33, 0x34, 0x37, 0x31]
  const HEX6: seq<Byte> := [0x32, 0x32, 0x31, 0x38, 0x62, 0x30, 0x33, 0x66]
  const HEX7: seq<Byte> := [0x35, 0x64, 0x63, 0x61, 0x37, 0x31, 0x66, 0x31]

  /** `d` is the stored digest. */
  predicate IsStoredDigest(d: seq<Byte>) {
    && |d| == 64
    && d[0..8] == HEX0 && d[8..16] == HEX1 && d[16..24] == HEX2 && d[24..32] == HEX3
    && d[32..40] == HEX4 && d[40..48] == HEX5 && d[48..56] == HEX6 && d[56..64] == HEX7
  }

  // ---- the padded message

  predicate IsPaddedMessage(b: seq<Byte>) {
    && |b| == 64
    && b[0] == 0x61 && b[1] == 0x64 && b[2] == 0x6d && b[3] == 0x69
    && b[4] == 0x6e && b[5] == 0x31 && b[6] == 0x32 && b[7] == 0x33
    && b[8] == 0x31 && b[9] == 0x37 && b[10] == 0x32 && b[11] == 0x33
    && b[12] == 0x37 && b[13] == 0x30 && b[14] == 0x30 && b[15] == 0x30
    && b[16] == 0x30 && b[17] == 0x30 && b[18] == 0x80 && b[19] == 0x00
    && b[20] == 0x00 && b[21] == 0x00 && b[22] == 0x00 && b[23] == 0x00
    && b[24] == 0x00 && b[25] == 0x00 && b[26] == 0x00 && b[27] == 0x00
    && b[28] == 0x00 && b[29] == 0x00 && b[30] == 0x00 && b[31] == 0x00
    && b[32] == 0x00 && b[33] == 0x00 && b[34] == 0x00 && b[35] == 0x00
    && b[36] == 0x00 && b[37] == 0x00 && b[38] == 0x00 && b[39] == 0x00
    && b[40] == 0x00 && b[41] == 0x00 && b[42] == 0x00 && b[43] == 0x00
    && b[44] == 0x00 && b[45] == 0x00 && b[46] == 0x00 && b[47] == 0x00
    && b[48] == 0x00 && b[49] == 0x00 && b[50] == 0x00 && b[51] == 0x00
    && b[52] == 0x00 && b[53] == 0x00 && b[54] == 0x00 && b[55] == 0x00
    && b[56] == 0x00 && b[57] == 0x00 && b[58] == 0x00 && b[59] == 0x00
    && b[60] == 0x00 && b[61] == 0x00 && b[62] == 0x00 && b[63] == 0x90
  }

  lemma PaddedMessage()
    ensures IsPaddedMessage(Pad(PASSWORD + SALT))
  {
    MessageLength();
    LengthField();
    PaddingParts(PASSWORD + SALT);
  }

  lemma PaddingParts(m: seq<Byte>)
    requires |m| == 18 && BitLength(m) == 0x90
    ensures |Pad(m)| == 64 && Pad(m)[..18] == m && Pad(m)[18] == 0x80
    ensures forall i | 19 <= i < 56 :: Pad(m)[i] == 0
    ensures Pad(m)[56..] == LengthBytes(0x90)
  {
  }

  lemma MessageLength()
    ensures BitLength(PASSWORD + SALT) == 0x90
  {
    assert 8 * |PASSWORD + SALT| % TWO_64 == 0x90;
  }

  lemma LengthField()
    ensures LengthBytes(0x90) == [0, 0, 0, 0, 0, 0, 0, 0x90]
  {
  }

  // ---- the message schedule

  predicate Words0(b: Block) {
    && Schedule(b, 0) == 0x61646d69
    && Schedule(b, 1) == 0x6e313233
    && Schedule(b, 2) == 0x31373233
    && Schedule(b, 3) == 0x37303030
    && Schedule(b, 4) == 0x30308000
    && Schedule(b, 5) == 0x00000000
    && Schedule(b, 6) == 0x00000000
    && Schedule(b, 7) == 0x00000000
  }

  predicate Words1(b: Block) {
    && Schedule(b, 8) == 0x00000000
    && Schedule(b, 9) == 0x00000000
    && Schedule(b, 10) == 0x00000000
    && Schedule(b, 11) == 0x00000000
    && Schedule(b, 12) == 0x00000000
    && Schedule(b, 13) == 0x00000000
    && Schedule(b, 14) == 0x00000000
    && Schedule(b, 15) == 0x00000090
  }

  predicate Words2(b: Block) {
    && Schedule(b, 16) == 0x88fb0d17
    && Schedule(b, 17) == 0x1b5376a2
    && Schedule(b, 18) == 0x82c6a97e
    && Schedule(b, 19) == 0x331a475a
    && Schedule(b, 20) == 0xb1e0a091
    && Schedule(b, 21) == 0x6b4a997f
    && Schedule(b, 22) == 0x44769774
    && Schedule(b, 23) == 0xa8859781
  }

  predicate Words3(b: Block) {
    && Schedule(b, 24) == 0xb4992db2
    && Schedule(b, 25) == 0xfbe169b5
    && Schedule(b, 26) == 0xe65c71ee
    && Schedule(b, 27) == 0x4bb35b67
    && Schedule(b, 28) == 0x223dd278
    && Schedule(b, 29) == 0x0b4437ed
    && Schedule(b, 30) == 0x1c2531c1
    && Schedule(b, 31) == 0x4eee998f
  }

  predicate Words4(b: Block) {
    && Schedule(b, 32) == 0x5eb06a93
    && Schedule(b, 33) == 0xe898d668
    && Schedule(b, 34) == 0x2a5a5e1c
    && Schedule(b, 35) == 0xe4972267
    && Schedule(b, 36) == 0x77cbfc3e
    && Schedule(b, 37) == 0x4291252e
    && Schedule(b, 38) == 0x888c0ce4
    && Schedule(b, 39) == 0xf5ef0a32
  }

  predicate Words5(b: Block) {
    && Schedule(b, 40) == 0x53e58b8b
    && Schedule(b, 41) == 0x681ab6a2
    && Schedule(b, 42) == 0x50ccae77
    && Schedule(b, 43) == 0x51bca0ac
    && Schedule(b, 44) == 0xfe35b53d
    && Schedule(b, 45) == 0x25f4bde4
    && Schedule(b, 46) == 0x2f3ee75d
    && Schedule(b, 47) == 0xa3ebcab0
  }

  predicate Words6(b: Block) {
    && Schedule(b, 48) == 0x6f72303d
    && Schedule(b, 49) == 0x80253a42
    && Schedule(b, 50) == 0xf5dbf8d0
    && Schedule(b, 51) == 0xaa2f6689
    && Schedule(b, 52) == 0x3eac6315
    && Schedule(b, 53) == 0xacc933bc
    && Schedule(b, 54) == 0xa439ed58
    && Schedule(b, 55) == 0xa31ddabf
  }

  predicate Words7(b: Block) {
    && Schedule(b, 56) == 0x83b5086c
    && Schedule(b, 57) == 0x833d6aae
    && Schedule(b, 58) == 0x9ad74b29
    && Schedule(b, 59) == 0xb20104a4
    && Schedule(b, 60) == 0xdb62ac96
    && Schedule(b, 61) == 0x7387e527
    && Schedule(b, 62) == 0x5de2b6cb
    && Schedule(b, 63) == 0x310c8321
  }

  lemma WordsOfMessage(b: Block)
    requires IsPaddedMessage(b)
    ensures Words0(b) && Words1(b)
  {
  }

  lemma NextWords2(b: Block)
    requires Words0(b) && Words1(b)
    ensures Words2(b)
  {
  }

  lemma NextWords3(b: Block)
    requires Words1(b) && Words2(b)
    ensures Words3(b)
  {
  }

  lemma NextWords4(b: Block)
    requires Words2(b) && Words3(b)
    ensures Words4(b)
  {
  }

  lemma NextWords5(b: Block)
    requires Words3(b) && Words4(b)
    ensures Words5(b)
  {
  }

  lemma NextWords6(b: Block)
    requires Words4(b) && Words5(b)
    ensures Words6(b)
  {
  }

  lemma NextWords7(b: Block)
    requires Words5(b) && Words6(b)
    ensures Words7(b)
  {
  }

  lemma WholeSchedule(b: Block)
    requires IsPaddedMessage(b)
    ensures Words0(b) && Words1(b) && Words2(b) && Words3(b) && Words4(b) && Words5(b) && Words6(b) && Words7(b)
  {
    WordsOfMessage(b);
    NextWords2(b);
    NextWords3(b);
    NextWords4(b);
    NextWords5(b);
    NextWords6(b);
    NextWords7(b);
  }

  // ---- the rounds

  lemma Rounds0(b: Block)
    requires Words0(b)
    requires Rounds(H0, b, 0) ==
             Regs(0x6a09e667, 0xbb67ae85, 0x3c6ef372, 0xa54ff53a, 0x510e527f, 0x9b05688c, 0x1f83d9ab, 0x5be0cd19)
    ensures Rounds(H0, b, 4) ==
            Regs(0x96f8ef3c, 0x5a985ab7, 0x8d66b05b, 0x5d6cf5b6, 0x411fc5e7, 0xcd4e6baf, 0xc528ada7, 0xfa2c500b)
  {
    assert K(0) == 0x428a2f98;
    assert K(1) == 0x71374491;
    assert K(2) == 0xb5c0fbcf;
    assert K(3) == 0xe9b5dba5;
    assert Rounds(H0, b, 1) ==
           Regs(0x5d6cf5b6, 0x6a09e667, 0xbb67ae85, 0x3c6ef372, 0xfa2c500b, 0x510e527f, 0x9b05688c, 0x1f83d9ab);
    assert Rounds(H0, b, 2) ==
           Regs(0x8d66b05b, 0x5d6cf5b6, 0x6a09e667, 0xbb67ae85, 0xc528ada7, 0xfa2c500b, 0x510e527f, 0x9b05688c);
    assert Rounds(H0, b, 3) ==
           Regs(0x5a985ab7, 0x8d66b05b, 0x5d6cf5b6, 0x6a09e667, 0xcd4e6baf, 0xc528ada7, 0xfa2c500b, 0x510e527f);
  }

  lemma Rounds1(b: Block)
    requires Words0(b)
    requires Rounds(H0, b, 4) ==
             Regs(0x96f8ef3c, 0x5a985ab7, 0x8d66b05b, 0x5d6cf5b6, 0x411fc5e7, 0xcd4e6baf, 0xc528ada7, 0xfa2c500b)
    ensures Rounds(H0, b, 8) ==
            Regs(0x7c92f5f4, 0xe442fcc4, 0x15e389dc, 0x35d023ee, 0x0904acad, 0x632b6e43, 0xb9e7afcc, 0x345da112)
  {
    assert K(4) == 0x3956c25b;
    assert K(5) == 0x59f111f1;
    assert K(6) == 0x923f82a4;
    assert K(7) == 0xab1c5ed5;
    assert Rounds(H0, b, 5) ==
           Regs(0x35d023ee, 0x96f8ef3c, 0x5a985ab7, 0x8d66b05b, 0x345da112, 0x411fc5e7, 0xcd4e6baf, 0xc528ada7);
    assert Rounds(H0, b, 6) ==
           Regs(0x15e389dc, 0x35d023ee, 0x96f8ef3c, 0x5a985ab7, 0xb9e7afcc, 0x345da112, 0x411fc5e7, 0xcd4e6baf);
    assert Rounds(H0, b, 7) ==
           Regs(0xe442fcc4, 0x15e389dc, 0x35d023ee, 0x96f8ef3c, 0x632b6e43, 0xb9e7afcc, 0x345da112, 0x411fc5e7);
  }

  lemma Rounds2(b: Block)
    requires Words1(b)
    requires Rounds(H0, b, 8) ==
             Regs(0x7c92f5f4, 0xe442fcc4, 0x15e389dc, 0x35d023ee, 0x0904acad, 0x632b6e43, 0xb9e7afcc, 0x345da112)
    ensures Rounds(H0, b, 12) ==
            Regs(0x0d6e6e3a, 0x57af521b, 0xb00b0423, 0xd22f657a, 0xbf591b51, 0x6ad719dd, 0xaf22f49e, 0x97ec037c)
  {
    assert K(8) == 0xd807aa98;
    assert K(9) == 0x12835b01;
    assert K(10) == 0x243185be;
    assert K(11) == 0x550c7dc3;
    assert Rounds(H0, b, 9) ==
           Regs(0xd22f657a, 0x7c92f5f4, 0xe442fcc4, 0x15e389dc, 0x97ec037c, 0x0904acad, 0x632b6e43, 0xb9e7afcc);
    assert Rounds(H0, b, 10) ==
           Regs(0xb00b0423, 0xd22f657a, 0x7c92f5f4, 0xe442fcc4, 0xaf22f49e, 0x97ec037c, 0x0904acad, 0x632b6e43);
    assert Rounds(H0, b, 11) ==
           Regs(0x57af521b, 0xb00b0423, 0xd22f657a, 0x7c92f5f4, 0x6ad719dd, 0xaf22f49e, 0x97ec037c, 0x0904acad);
  }

  lemma Rounds3(b: Block)
    requires Words1(b)
    requires Rounds(H0, b, 12) ==
             Regs(0x0d6e6e3a, 0x57af521b, 0xb00b0423, 0xd22f657a, 0xbf591b51, 0x6ad719dd, 0xaf22f49e, 0x97ec037c)
    ensures Rounds(H0, b, 16) ==
            Regs(0x291f53a8, 0x7f504dd4, 0x027c4fcd, 0x15c7e563, 0xeef8bc13, 0x01c8fc6c, 0xaa9b1285, 0x8794ebda)
  {
    assert K(12) == 0x72be5d74;
    assert K(13) == 0x80deb1fe;
    assert K(14) == 0x9bdc06a7;
    assert K(15) == 0xc19bf174;
    assert Rounds(H0, b, 13) ==
           Regs(0x15c7e563, 0x0d6e6e3a, 0x57af521b, 0xb00b0423, 0x8794ebda, 0xbf591b51, 0x6ad719dd, 0xaf22f49e);
    assert Rounds(H0, b, 14) ==
           Regs(0x027c4fcd, 0x15c7e563, 0x0d6e6e3a, 0x57af521b, 0xaa9b1285, 0x8794ebda, 0xbf591b51, 0x6ad719dd);
    assert Rounds(H0, b, 15) ==
           Regs(0x7f504dd4, 0x027c4fcd, 0x15c7e563, 0x0d6e6e3a, 0x01c8fc6c, 0xaa9b1285, 0x8794ebda, 0xbf591b51);
  }

  lemma Rounds4(b: Block)
    requires Words2(b)
    requires Rounds(H0, b, 16) ==
             Regs(0x291f53a8, 0x7f504dd4, 0x027c4fcd, 0x15c7e563, 0xeef8bc13, 0x01c8fc6c, 0xaa9b1285, 0x8794ebda)
    ensures Rounds(H0, b, 20) ==
            Regs(0xf5a2faf1, 0xb0346870, 0x66f6bca3, 0xbd33e1c6, 0xac620c38, 0x1bf8af9c, 0xbd61bf92, 0xbd573aa9)
  {
    assert K(16) == 0xe49b69c1;
    assert K(17) == 0xefbe4786;
    assert K(18) == 0x0fc19dc6;
    assert K(19) == 0x240ca1cc;
    assert Rounds(H0, b, 17) ==
           Regs(0xbd33e1c6, 0x291f53a8, 0x7f504dd4, 0x027c4fcd, 0xbd573aa9, 0xeef8bc13, 0x01c8fc6c, 0xaa9b1285);
    assert Rounds(H0, b, 18) ==
           Regs(0x66f6bca3, 0xbd33e1c6, 0x291f53a8, 0x7f504dd4, 0xbd61bf92, 0xbd573aa9, 0xeef8bc13, 0x01c8fc6c);
    assert Rounds(H0, b, 19) ==
           Regs(0xb0346870, 0x66f6bca3, 0xbd33e1c6, 0x291f53a8, 0x1bf8af9c, 0xbd61bf92, 0xbd573aa9, 0xeef8bc13);
  }

  lemma Rounds5(b: Block)
    requires Words2(b)
    requires Rounds(H0, b, 20) ==
             Regs(0xf5a2faf1, 0xb0346870, 0x66f6bca3, 0xbd33e1c6, 0xac620c38, 0x1bf8af9c, 0xbd61bf92, 0xbd573aa9)
    ensures Rounds(H0, b, 24) ==
            Regs(0xa9d8a002, 0xde3ceeea, 0x554332cf, 0x20e8acd8, 0x17b08b04, 0xc8ad4082, 0x3f50b992, 0xc858c130)
  {
    assert K(20) == 0x2de92c6f;
    assert K(21) == 0x4a7484aa;
    assert K(22) == 0x5cb0a9dc;
    assert K(23) == 0x76f988da;
    assert Rounds(H0, b, 21) ==
           Regs(0x20e8acd8, 0xf5a2faf1, 0xb0346870, 0x66f6bca3, 0xc858c130, 0xac620c38, 0x1bf8af9c, 0xbd61bf92);
    assert Rounds(H0, b, 22) ==
           Regs(0x554332cf, 0x20e8acd8, 0xf5a2faf1, 0xb0346870, 0x3f50b992, 0xc858c130, 0xac620c38, 0x1bf8af9c);
    assert Rounds(H0, b, 23) ==
           Regs(0xde3ceeea, 0x554332cf, 0x20e8acd8, 0xf5a2faf1, 0xc8ad4082, 0x3f50b992, 0xc858c130, 0xac620c38);
  }

  lemma Rounds6(b: Block)
    requires Words3(b)
    requires Rounds(H0, b, 24) ==
             Regs(0xa9d8a002, 0xde3ceeea, 0x554332cf, 0x20e8acd8, 0x17b08b04, 0xc8ad4082, 0x3f50b992, 0xc858c130)
    ensures Rounds(H0, b, 28) ==
            Regs(0xd552b2e5, 0x3a75dddf, 0x2ebaae82, 0x8ce63628, 0x5920bc2d, 0x56b24ff8, 0xec5bf29f, 0x0792d3d4)
  {
    assert K(24) == 0x983e5152;
    assert K(25) == 0xa831c66d;
    assert K(26) == 0xb00327c8;
    assert K(27) == 0xbf597fc7;
    assert Rounds(H0, b, 25) ==
           Regs(0x8ce63628, 0xa9d8a002, 0xde3ceeea, 0x554332cf, 0x0792d3d4, 0x17b08b04, 0xc8ad4082, 0x3f50b992);
    assert Rounds(H0, b, 26) ==
           Regs(0x2ebaae82, 0x8ce63628, 0xa9d8a002, 0xde3ceeea, 0xec5bf29f, 0x0792d3d4, 0x17b08b04, 0xc8ad4082);
    assert Rounds(H0, b, 27) ==
           Regs(0x3a75dddf, 0x2ebaae82, 0x8ce63628, 0xa9d8a002, 0x56b24ff8, 0xec5bf29f, 0x0792d3d4, 0x17b08b04);
  }

  lemma Rounds7(b: Block)
    requires Words3(b)
    requires Rounds(H0, b, 28) ==
             Regs(0xd552b2e5, 0x3a75dddf, 0x2ebaae82, 0x8ce63628, 0x5920bc2d, 0x56b24ff8, 0xec5bf29f, 0x0792d3d4)
    ensures Rounds(H0, b, 32) ==
            Regs(0xab81634d, 0x99f7a47f, 0x49445efe, 0x6ce20184, 0x1bdd386f, 0x1252cac2, 0x5c6e84f9, 0x12a3e76c)
  {
    assert K(28) == 0xc6e00bf3;
    assert K(29) == 0xd5a79147;
    assert K(30) == 0x06ca6351;
    assert K(31) == 0x14292967;
    assert Rounds(H0, b, 29) ==
           Regs(0x6ce20184, 0xd552b2e5, 0x3a75dddf, 0x2ebaae82, 0x12a3e76c, 0x5920bc2d, 0x56b24ff8, 0xec5bf29f);
    assert Rounds(H0, b, 30) ==
           Regs(0x49445efe, 0x6ce20184, 0xd552b2e5, 0x3a75dddf, 0x5c6e84f9, 0x12a3e76c, 0x5920bc2d, 0x56b24ff8);
    assert Rounds(H0, b, 31) ==
           Regs(0x99f7a47f, 0x49445efe, 0x6ce20184, 0xd552b2e5, 0x1252cac2, 0x5c6e84f9, 0x12a3e76c, 0x5920bc2d);
  }

  lemma Rounds8(b: Block)
    requires Words4(b)
    requires Rounds(H0, b, 32) ==
             Regs(0xab81634d, 0x99f7a47f, 0x49445efe, 0x6ce20184, 0x1bdd386f, 0x1252cac2, 0x5c6e84f9, 0x12a3e76c)
    ensures Rounds(H0, b, 36) ==
            Regs(0x02500080, 0x43889aed, 0x779f6223, 0x4d53bb16, 0xc05219b5, 0xbc77f2b8, 0x32054055, 0xbb7023a5)
  {
    assert K(32) == 0x27b70a85;
    assert K(33) == 0x2e1b2138;
    assert K(34) == 0x4d2c6dfc;
    assert K(35) == 0x53380d13;
    assert Rounds(H0, b, 33) ==
           Regs(0x4d53bb16, 0xab81634d, 0x99f7a47f, 0x49445efe, 0xbb7023a5, 0x1bdd386f, 0x1252cac2, 0x5c6e84f9);
    assert Rounds(H0, b, 34) ==
           Regs(0x779f6223, 0x4d53bb16, 0xab81634d, 0x99f7a47f, 0x32054055, 0xbb7023a5, 0x1bdd386f, 0x1252cac2);
    assert Rounds(H0, b, 35) ==
           Regs(0x43889aed, 0x779f6223, 0x4d53bb16, 0xab81634d, 0xbc77f2b8, 0x32054055, 0xbb7023a5, 0x1bdd386f);
  }

  lemma Rounds9(b: Block)
    requires Words4(b)
    requires Rounds(H0, b, 36) ==
             Regs(0x02500080, 0x43889aed, 0x779f6223, 0x4d53bb16, 0xc05219b5, 0xbc77f2b8, 0x32054055, 0xbb7023a5)
    ensures Rounds(H0, b, 40) ==
            Regs(0x3b994a25, 0x94c09861, 0x5642c9c0, 0x9b819236, 0x02cbabf6, 0x7553b18f, 0x99453650, 0x60a73802)
  {
    assert K(36) == 0x650a7354;
    assert K(37) == 0x766a0abb;
    assert K(38) == 0x81c2c92e;
    assert K(39) == 0x92722c85;
    assert Rounds(H0, b, 37) ==
           Regs(0x9b819236, 0x02500080, 0x43889aed, 0x779f6223, 0x60a73802, 0xc05219b5, 0xbc77f2b8, 0x32054055);
    assert Rounds(H0, b, 38) ==
           Regs(0x5642c9c0, 0x9b819236, 0x02500080, 0x43889aed, 0x99453650, 0x60a73802, 0xc05219b5, 0xbc77f2b8);
    assert Rounds(H0, b, 39) ==
           Regs(0x94c09861, 0x5642c9c0, 0x9b819236, 0x02500080, 0x7553b18f, 0x99453650, 0x60a73802, 0xc05219b5);
  }

  lemma Rounds10(b: Block)
    requires Words5(b)
    requires Rounds(H0, b, 40) ==
             Regs(0x3b994a25, 0x94c09861, 0x5642c9c0, 0x9b819236, 0x02cbabf6, 0x7553b18f, 0x99453650, 0x60a73802)
    ensures Rounds(H0, b, 44) ==
            Regs(0x128fe222, 0x14d8d5f6, 0x40671f08, 0x455ad19d, 0xbffd0ac3, 0xf4162d4f, 0xc9d624ff, 0x4f3480c5)
  {
    assert K(40) == 0xa2bfe8a1;
    assert K(41) == 0xa81a664b;
    assert K(42) == 0xc24b8b70;
    assert K(43) == 0xc76c51a3;
    assert Rounds(H0, b, 41) ==
           Regs(0x455ad19d, 0x3b994a25, 0x94c09861, 0x5642c9c0, 0x4f3480c5, 0x02cbabf6, 0x7553b18f, 0x99453650);
    assert Rounds(H0, b, 42) ==
           Regs(0x40671f08, 0x455ad19d, 0x3b994a25, 0x94c09861, 0xc9d624ff, 0x4f3480c5, 0x02cbabf6, 0x7553b18f);
    assert Rounds(H0, b, 43) ==
           Regs(0x14d8d5f6, 0x40671f08, 0x455ad19d, 0x3b994a25, 0xf4162d4f, 0xc9d624ff, 0x4f3480c5, 0x02cbabf6);
  }

  lemma Rounds11(b: Block)
    requires Words5(b)
    requires Rounds(H0, b, 44) ==
             Regs(0x128fe222, 0x14d8d5f6, 0x40671f08, 0x455ad19d, 0xbffd0ac3, 0xf4162d4f, 0xc9d624ff, 0x4f3480c5)
    ensures Rounds(H0, b, 48) ==
            Regs(0x7bcabbf3, 0x12279853, 0x57ec41a2, 0x762c70ce, 0x9fbe11f3, 0xa664e752, 0xd78adb3c, 0x007b868c)
  {
    assert K(44) == 0xd192e819;
    assert K(45) == 0xd6990624;
    assert K(46) == 0xf40e3585;
    assert K(47) == 0x106aa070;
    assert Rounds(H0, b, 45) ==
           Regs(0x762c70ce, 0x128fe222, 0x14d8d5f6, 0x40671f08, 0x007b868c, 0xbffd0ac3, 0xf4162d4f, 0xc9d624ff);
    assert Rounds(H0, b, 46) ==
           Regs(0x57ec41a2, 0x762c70ce, 0x128fe222, 0x14d8d5f6, 0xd78adb3c, 0x007b868c, 0xbffd0ac3, 0xf4162d4f);
    assert Rounds(H0, b, 47) ==
           Regs(0x12279853, 0x57ec41a2, 0x762c70ce, 0x128fe222, 0xa664e752, 0xd78adb3c, 0x007b868c, 0xbffd0ac3);
  }

  lemma Rounds12(b: Block)
    requires Words6(b)
    requires Rounds(H0, b, 48) ==
             Regs(0x7bcabbf3, 0x12279853, 0x57ec41a2, 0x762c70ce, 0x9fbe11f3, 0xa664e752, 0xd78adb3c, 0x007b868c)
    ensures Rounds(H0, b, 52) ==
            Regs(0x8479f8a2, 0x37daf523, 0x6436c76e, 0xfe3290c0, 0x7ad64ff3, 0x526ccf97, 0xce3819e1, 0xf4e9aa55)
  {
    assert K(48) == 0x19a4c116;
    assert K(49) == 0x1e376c08;
    assert K(50) == 0x2748774c;
    assert K(51) == 0x34b0bcb5;
    assert Rounds(H0, b, 49) ==
           Regs(0xfe3290c0, 0x7bcabbf3, 0x12279853, 0x57ec41a2, 0xf4e9aa55, 0x9fbe11f3, 0xa664e752, 0xd78adb3c);
    assert Rounds(H0, b, 50) ==
           Regs(0x6436c76e, 0xfe3290c0, 0x7bcabbf3, 0x12279853, 0xce3819e1, 0xf4e9aa55, 0x9fbe11f3, 0xa664e752);
    assert Rounds(H0, b, 51) ==
           Regs(0x37daf523, 0x6436c76e, 0xfe3290c0, 0x7bcabbf3, 0x526ccf97, 0xce3819e1, 0xf4e9aa55, 0x9fbe11f3);
  }

  lemma Rounds13(b: Block)
    requires Words6(b)
    requires Rounds(H0, b, 52) ==
             Regs(0x8479f8a2, 0x37daf523, 0x6436c76e, 0xfe3290c0, 0x7ad64ff3, 0x526ccf97, 0xce3819e1, 0xf4e9aa55)
    ensures Rounds(H0, b, 56) ==
            Regs(0xb5a920dd, 0xec90aa0f, 0xed606ca5, 0x44264113, 0x640f3fc4, 0xc0454ef0, 0x0c84468a, 0x99f504bb)
  {
    assert K(52) == 0x391c0cb3;
    assert K(53) == 0x4ed8aa4a;
    assert K(54) == 0x5b9cca4f;
    assert K(55) == 0x682e6ff3;
    assert Rounds(H0, b, 53) ==
           Regs(0x44264113, 0x8479f8a2, 0x37daf523, 0x6436c76e, 0x99f504bb, 0x7ad64ff3, 0x526ccf97, 0xce3819e1);
    assert Rounds(H0, b, 54) ==
           Regs(0xed606ca5, 0x44264113, 0x8479f8a2, 0x37daf523, 0x0c84468a, 0x99f504bb, 0x7ad64ff3, 0x526ccf97);
    assert Rounds(H0, b, 55) ==
           Regs(0xec90aa0f, 0xed606ca5, 0x44264113, 0x8479f8a2, 0xc0454ef0, 0x0c84468a, 0x99f504bb, 0x7ad64ff3);
  }

  lemma Rounds14(b: Block)
    requires Words7(b)
    requires Rounds(H0, b, 56) ==
             Regs(0xb5a920dd, 0xec90aa0f, 0xed606ca5, 0x44264113, 0x640f3fc4, 0xc0454ef0, 0x0c84468a, 0x99f504bb)
    ensures Rounds(H0, b, 60) ==
            Regs(0xab425184, 0xea96a39f, 0x8505ed4e, 0x85e6fa3e, 0x1e90034b, 0x7500fbe8, 0xe1604425, 0x0d687f1c)
  {
    assert K(56) == 0x748f82ee;
    assert K(57) == 0x78a5636f;
    assert K(58) == 0x84c87814;
    assert K(59) == 0x8cc70208;
    assert Rounds(H0, b, 57) ==
           Regs(0x85e6fa3e, 0xb5a920dd, 0xec90aa0f, 0xed606ca5, 0x0d687f1c, 0x640f3fc4, 0xc0454ef0, 0x0c84468a);
    assert Rounds(H0, b, 58) ==
           Regs(0x8505ed4e, 0x85e6fa3e, 0xb5a920dd, 0xec90aa0f, 0xe1604425, 0x0d687f1c, 0x640f3fc4, 0xc0454ef0);
    assert Rounds(H0, b, 59) ==
           Regs(0xea96a39f, 0x8505ed4e, 0x85e6fa3e, 0xb5a920dd, 0x7500fbe8, 0xe1604425, 0x0d687f1c, 0x640f3fc4);
  }

  lemma Rounds15(b: Block)
    requires Words7(b)
    requires Rounds(H0, b, 60) ==
             Regs(0xab425184, 0xea96a39f, 0x8505ed4e, 0x85e6fa3e, 0x1e90034b, 0x7500fbe8, 0xe1604425, 0x0d687f1c)
    ensures Rounds(H0, b, 64) ==
            Regs(0x1e1ba9fc, 0xd6a85f01, 0x70633fbc, 0xd6bd6906, 0xc5dbd6a4, 0x61d5cbe5, 0x0294d694, 0x01e9a4d8)
  {
    assert K(60) == 0x90befffa;
    assert K(61) == 0xa4506ceb;
    assert K(62) == 0xbef9a3f7;
    assert K(63) == 0xc67178f2;
    assert Rounds(H0, b, 61) ==
           Regs(0xd6bd6906, 0xab425184, 0xea96a39f, 0x8505ed4e, 0x01e9a4d8, 0x1e90034b, 0x7500fbe8, 0xe1604425);
    assert Rounds(H0, b, 62) ==
           Regs(0x70633fbc, 0xd6bd6906, 0xab425184, 0xea96a39f, 0x0294d694, 0x01e9a4d8, 0x1e90034b, 0x7500fbe8);
    assert Rounds(H0, b, 63) ==
           Regs(0xd6a85f01, 0x70633fbc, 0xd6bd6906, 0xab425184, 0x61d5cbe5, 0x0294d694, 0x01e9a4d8, 0x1e90034b);
  }

  lemma AllRounds(b: Block)
    requires IsPaddedMessage(b)
    ensures Compress(H0, b) ==
            Regs(0x88259063, 0x92100d86, 0xacd2332e, 0x7c0d5e40, 0x16ea2923, 0xfcdb3471, 0x2218b03f, 0x5dca71f1)
  {
    WholeSchedule(b);
    Rounds0(b);
    Rounds1(b);
    Rounds2(b);
    Rounds3(b);
    Rounds4(b);
    Rounds5(b);
    Rounds6(b);
    Rounds7(b);
    Rounds8(b);
    Rounds9(b);
    Rounds10(b);
    Rounds11(b);
    Rounds12(b);
    Rounds13(b);
    Rounds14(b);
    Rounds15(b);
  }

  lemma MessageHash()
    ensures HashOf(PASSWORD + SALT) ==
            Regs(0x88259063, 0x92100d86, 0xacd2332e, 0x7c0d5e40, 0x16ea2923, 0xfcdb3471, 0x2218b03f, 0x5dca71f1)
  {
    var p := Pad(PASSWORD + SALT);
    PaddedMessage();
    PadAligns(PASSWORD + SALT);
    AllRounds(p);
    assert BlockAt(p, 0) == p;
    assert HashBlocks(p, 0) == H0;
  }

  // ---- the text

  lemma HexText0()
    ensures HexWord(0x88259063) == HEX0
  {
  }

  lemma HexText1()
    ensures HexWord(0x92100d86) == HEX1
  {
  }

  lemma HexText2()
    ensures HexWord(0xacd2332e) == HEX2
  {
  }

  lemma HexText3()
    ensures HexWord(0x7c0d5e40) == HEX3
  {
  }

  lemma HexText4()
    ensures HexWord(0x16ea2923) == HEX4
  {
  }

  lemma HexText5()
    ensures HexWord(0xfcdb3471) == HEX5
  {
  }

  lemma HexText6()
    ensures HexWord(0x2218b03f) == HEX6
  {
  }

  lemma HexText7()
    ensures HexWord(0x5dca71f1) == HEX7
  {
  }

  lemma {:induction false} HexSlice(ws: seq<Word>, i: nat)
    requires i < |ws|
    ensures HexWords(ws)[8 * i..8 * i + 8] == HexWord(ws[i])
  {
    var n := |ws| - 1;
    if i < n {
      HexSlice(ws[..n], i);
      assert HexWords(ws)[8 * i..8 * i + 8] == HexWords(ws[..n])[8 * i..8 * i + 8];
    }
  }

  lemma MessageDigest()
    ensures IsStoredDigest(Digest(PASSWORD + SALT))
  {
    MessageHash();
    DigestSlices(PASSWORD + SALT);
    HexText0();
    HexText1();
    HexText2();
    HexText3();
    HexText4();
    HexText5();
    HexText6();
    HexText7();
  }

  lemma DigestSlices(m: seq<Byte>)
    ensures var d, h := Digest(m), HashOf(m);
            && d[0..8] == HexWord(h.a) && d[8..16] == HexWord(h.b) && d[16..24] == HexWord(h.c)
            && d[24..32] == HexWord(h.d) && d[32..40] == HexWord(h.e) && d[40..48] == HexWord(h.f)
            && d[48..56] == HexWord(h.g) && d[56..64] == HexWord(h.h)
  {
    var ws := HashOf(m).Words();
    HexSlice(ws, 0);
    HexSlice(ws, 1);
    HexSlice(ws, 2);
    HexSlice(ws, 3);
    HexSlice(ws, 4);
    HexSlice(ws, 5);
    HexSlice(ws, 6);
    HexSlice(ws, 7);
  }

  lemma SameSlice(a: seq<Byte>, b: seq<Byte>, lo: nat)
    requires |a| == |b| && lo + 8 <= |a| && a[lo..lo + 8] == b[lo..lo + 8]
    ensures forall i | lo <= i < lo + 8 :: a[i] == b[i]
  {
    forall i | lo <= i < lo + 8
      ensures a[i] == b[i]
    {
      assert a[i] == a[lo..lo + 8][i - lo] == b[lo..lo + 8][i - lo];
    }
  }

  lemma SameSlices(a: seq<Byte>, b: seq<Byte>)
    requires IsStoredDigest(a) && IsStoredDigest(b)
    ensures a == b
  {
    SameSlice(a, b, 0);
    SameSlice(a, b, 8);
    SameSlice(a, b, 16);
    SameSlice(a, b, 24);
    SameSlice(a, b, 32);
    SameSlice(a, b, 40);
    SameSlice(a, b, 48);
    SameSlice(a, b, 56);
  }

  /** The value stored for the built-in account is the encoding of its password, and the password is
      accepted against it. */
  lemma BuiltinPasswordIsAccepted(stored: seq<Byte>)
    requires |stored| == 75 && stored[..11] == SALT + [COLON] && IsStoredDigest(stored[11..])
    ensures stored == EncodePassword(PASSWORD, SALT) && Accepts(PASSWORD, stored)
  {
    MessageDigest();
    SameSlices(stored[11..], Digest(PASSWORD + SALT));
    assert stored == stored[..11] + stored[11..];
    VerifyAfterEncode(PASSWORD, PASSWORD, SALT);
  }
}
