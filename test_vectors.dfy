/** Concrete words and blocks from the unpack tests, decoded exactly. */
module TestVectors {
  import opened Numerals
  import opened WordCodec
  import opened DigitStream

  /** One step of rendering: the last digit of `v` follows the rendering of `v / radix`. */
  lemma Step(v: nat, radix: nat, n: nat, v2: nat, d: nat, prefix: string)
    requires 2 <= radix <= 16 && 0 < n && v / radix == v2 && v % radix == d
    requires Digits(v2, radix, n - 1) == prefix
    ensures Digits(v, radix, n) == prefix + [DigitChar(d)]
  {
  }

  /** The first two words of the decimal single-block test. */
  const DecWords: seq<byte> := [0x60, 0xe2, 0x3e, 0xb8, 0xae, 0x61, 0xa6, 0x13, 0x23, 0x66, 0x57, 0xf6, 0x84, 0x66, 0xef, 0x56]

  /** The first two words of the hexadecimal single-block test. */
  const HexWords: seq<byte> := [0xd3, 0x08, 0xa3, 0x85, 0x88, 0x6a, 0x3f, 0x24, 0x44, 0x73, 0x70, 0x03, 0x2e, 0x8a, 0x19, 0x13]

  /** Block 0 of the boundary test. */
  const BoundaryPayload0: seq<byte> := [0x60, 0xe2, 0x3e, 0xb8, 0xae, 0x61, 0xa6, 0x13, 0x00, 0x0f, 0x58, 0xf3, 0x84, 0x66, 0xef, 0x56]

  /** Block 1 of the boundary test. */
  const BoundaryPayload1: seq<byte> := [0x17, 0x3f, 0x65, 0x1a, 0x21, 0x09, 0xca, 0x45, 0x00, 0x60, 0x5b, 0x4a, 0x96, 0x06, 0x14, 0x08]

  /** Block 2 of the boundary test. */
  const BoundaryPayload2: seq<byte> := [0x09, 0xfb, 0xd6, 0x59, 0x35, 0x00, 0x33, 0x52, 0x00, 0xe9, 0xe5, 0x0f, 0x83, 0xb7, 0xdf, 0x88]

  /** The first word of block 3 of the boundary test. */
  const BoundaryLead3: seq<byte> := [0x00, 0xe6, 0xc6, 0x3d, 0x9b, 0x70, 0x7a, 0x2f]

  lemma Dec0Front()
    ensures Digits(141592653, 10, 9) == "141592653"
  {
    ghost var t0: string := [];
    Step(1, 10, 1, 0, 1, t0);
    ghost var t1 := t0 + [DigitChar(1)];
    Step(14, 10, 2, 1, 4, t1);
    ghost var t2 := t1 + [DigitChar(4)];
    Step(141, 10, 3, 14, 1, t2);
    ghost var t3 := t2 + [DigitChar(1)];
    Step(1415, 10, 4, 141, 5, t3);
    ghost var t4 := t3 + [DigitChar(5)];
    Step(14159, 10, 5, 1415, 9, t4);
    ghost var t5 := t4 + [DigitChar(9)];
    Step(141592, 10, 6, 14159, 2, t5);
    ghost var t6 := t5 + [DigitChar(2)];
    Step(1415926, 10, 7, 141592, 6, t6);
    ghost var t7 := t6 + [DigitChar(6)];
    Step(14159265, 10, 8, 1415926, 5, t7);
    ghost var t8 := t7 + [DigitChar(5)];
    Step(141592653, 10, 9, 14159265, 3, t8);
  }

  lemma Dec0Digits()
    ensures Digits(1415926535897932384, 10, 19) == "1415926535897932384"
  {
    Dec0Front();
    ghost var t9: string := "141592653";
    Step(1415926535, 10, 10, 141592653, 5, t9);
    ghost var t10 := t9 + [DigitChar(5)];
    Step(14159265358, 10, 11, 1415926535, 8, t10);
    ghost var t11 := t10 + [DigitChar(8)];
    Step(141592653589, 10, 12, 14159265358, 9, t11);
    ghost var t12 := t11 + [DigitChar(9)];
    Step(1415926535897, 10, 13, 141592653589, 7, t12);
    ghost var t13 := t12 + [DigitChar(7)];
    Step(14159265358979, 10, 14, 1415926535897, 9, t13);
    ghost var t14 := t13 + [DigitChar(9)];
    Step(141592653589793, 10, 15, 14159265358979, 3, t14);
    ghost var t15 := t14 + [DigitChar(3)];
    Step(1415926535897932, 10, 16, 141592653589793, 2, t15);
    ghost var t16 := t15 + [DigitChar(2)];
    Step(14159265358979323, 10, 17, 1415926535897932, 3, t16);
    ghost var t17 := t16 + [DigitChar(3)];
    Step(141592653589793238, 10, 18, 14159265358979323, 8, t17);
    ghost var t18 := t17 + [DigitChar(8)];
    Step(1415926535897932384, 10, 19, 141592653589793238, 4, t18);
  }

  /** The word at byte 0 of DecWords decodes to "1415926535897932384". */
  lemma Dec0Decodes()
    ensures Fits(Uint64(DecWords, 0), 10)
    ensures DecodeWord(Uint64(DecWords, 0), 10) == "1415926535897932384"
  {
    assert Uint64(DecWords, 0) == 1415926535897932384;
    PowTenNineteen();
    Dec0Digits();
  }

  lemma Dec1Front()
    ensures Digits(626433832, 10, 9) == "626433832"
  {
    ghost var t0: string := [];
    Step(6, 10, 1, 0, 6, t0);
    ghost var t1 := t0 + [DigitChar(6)];
    Step(62, 10, 2, 6, 2, t1);
    ghost var t2 := t1 + [DigitChar(2)];
    Step(626, 10, 3, 62, 6, t2);
    ghost var t3 := t2 + [DigitChar(6)];
    Step(6264, 10, 4, 626, 4, t3);
    ghost var t4 := t3 + [DigitChar(4)];
    Step(62643, 10, 5, 6264, 3, t4);
    ghost var t5 := t4 + [DigitChar(3)];
    Step(626433, 10, 6, 62643, 3, t5);
    ghost var t6 := t5 + [DigitChar(3)];
    Step(6264338, 10, 7, 626433, 8, t6);
    ghost var t7 := t6 + [DigitChar(8)];
    Step(62643383, 10, 8, 6264338, 3, t7);
    ghost var t8 := t7 + [DigitChar(3)];
    Step(626433832, 10, 9, 62643383, 2, t8);
  }

  lemma Dec1Digits()
    ensures Digits(6264338327950288419, 10, 19) == "6264338327950288419"
  {
    Dec1Front();
    ghost var t9: string := "626433832";
    Step(6264338327, 10, 10, 626433832, 7, t9);
    ghost var t10 := t9 + [DigitChar(7)];
    Step(62643383279, 10, 11, 6264338327, 9, t10);
    ghost var t11 := t10 + [DigitChar(9)];
    Step(626433832795, 10, 12, 62643383279, 5, t11);
    ghost var t12 := t11 + [DigitChar(5)];
    Step(6264338327950, 10, 13, 626433832795, 0, t12);
    ghost var t13 := t12 + [DigitChar(0)];
    Step(62643383279502, 10, 14, 6264338327950, 2, t13);
    ghost var t14 := t13 + [DigitChar(2)];
    Step(626433832795028, 10, 15, 62643383279502, 8, t14);
    ghost var t15 := t14 + [DigitChar(8)];
    Step(6264338327950288, 10, 16, 626433832795028, 8, t15);
    ghost var t16 := t15 + [DigitChar(8)];
    Step(62643383279502884, 10, 17, 6264338327950288, 4, t16);
    ghost var t17 := t16 + [DigitChar(4)];
    Step(626433832795028841, 10, 18, 62643383279502884, 1, t17);
    ghost var t18 := t17 + [DigitChar(1)];
    Step(6264338327950288419, 10, 19, 626433832795028841, 9, t18);
  }

  /** The word at byte 8 of DecWords decodes to "6264338327950288419". */
  lemma Dec1Decodes()
    ensures Fits(Uint64(DecWords, 8), 10)
    ensures DecodeWord(Uint64(DecWords, 8), 10) == "626433" + "8327950288419"
  {
    assert Uint64(DecWords, 8) == 6264338327950288419;
    PowTenNineteen();
    Dec1Digits();
  }

  lemma Hex0Front()
    ensures Digits(608135816, 16, 8) == "243f6a88"
  {
    ghost var t0: string := [];
    Step(2, 16, 1, 0, 2, t0);
    ghost var t1 := t0 + [DigitChar(2)];
    Step(36, 16, 2, 2, 4, t1);
    ghost var t2 := t1 + [DigitChar(4)];
    Step(579, 16, 3, 36, 3, t2);
    ghost var t3 := t2 + [DigitChar(3)];
    Step(9279, 16, 4, 579, 15, t3);
    ghost var t4 := t3 + [DigitChar(15)];
    Step(148470, 16, 5, 9279, 6, t4);
    ghost var t5 := t4 + [DigitChar(6)];
    Step(2375530, 16, 6, 148470, 10, t5);
    ghost var t6 := t5 + [DigitChar(10)];
    Step(38008488, 16, 7, 2375530, 8, t6);
    ghost var t7 := t6 + [DigitChar(8)];
    Step(608135816, 16, 8, 38008488, 8, t7);
  }

  lemma Hex0Digits()
    ensures Digits(2611923443488327891, 16, 16) == "243f6a8885a308d3"
  {
    Hex0Front();
    ghost var t8: string := "243f6a88";
    Step(9730173064, 16, 9, 608135816, 8, t8);
    ghost var t9 := t8 + [DigitChar(8)];
    Step(155682769029, 16, 10, 9730173064, 5, t9);
    ghost var t10 := t9 + [DigitChar(5)];
    Step(2490924304474, 16, 11, 155682769029, 10, t10);
    ghost var t11 := t10 + [DigitChar(10)];
    Step(39854788871587, 16, 12, 2490924304474, 3, t11);
    ghost var t12 := t11 + [DigitChar(3)];
    Step(637676621945392, 16, 13, 39854788871587, 0, t12);
    ghost var t13 := t12 + [DigitChar(0)];
    Step(10202825951126280, 16, 14, 637676621945392, 8, t13);
    ghost var t14 := t13 + [DigitChar(8)];
    Step(163245215218020493, 16, 15, 10202825951126280, 13, t14);
    ghost var t15 := t14 + [DigitChar(13)];
    Step(2611923443488327891, 16, 16, 163245215218020493, 3, t15);
  }

  /** The word at byte 0 of HexWords decodes to "243f6a8885a308d3". */
  lemma Hex0Decodes()
    ensures Fits(Uint64(HexWords, 0), 16)
    ensures DecodeWord(Uint64(HexWords, 0), 16) == "243f6a8885a308d3"
  {
    assert Uint64(HexWords, 0) == 2611923443488327891;
    HexWordsAlwaysFit(HexWords, 0);
    Hex0Digits();
  }

  lemma Hex1Front()
    ensures Digits(320440878, 16, 8) == "13198a2e"
  {
    ghost var t0: string := [];
    Step(1, 16, 1, 0, 1, t0);
    ghost var t1 := t0 + [DigitChar(1)];
    Step(19, 16, 2, 1, 3, t1);
    ghost var t2 := t1 + [DigitChar(3)];
    Step(305, 16, 3, 19, 1, t2);
    ghost var t3 := t2 + [DigitChar(1)];
    Step(4889, 16, 4, 305, 9, t3);
    ghost var t4 := t3 + [DigitChar(9)];
    Step(78232, 16, 5, 4889, 8, t4);
    ghost var t5 := t4 + [DigitChar(8)];
    Step(1251722, 16, 6, 78232, 10, t5);
    ghost var t6 := t5 + [DigitChar(10)];
    Step(20027554, 16, 7, 1251722, 2, t6);
    ghost var t7 := t6 + [DigitChar(2)];
    Step(320440878, 16, 8, 20027554, 14, t7);
  }

  lemma Hex1Digits()
    ensures Digits(1376283091369227076, 16, 16) == "13198a2e03707344"
  {
    Hex1Front();
    ghost var t8: string := "13198a2e";
    Step(5127054048, 16, 9, 320440878, 0, t8);
    ghost var t9 := t8 + [DigitChar(0)];
    Step(82032864771, 16, 10, 5127054048, 3, t9);
    ghost var t10 := t9 + [DigitChar(3)];
    Step(1312525836343, 16, 11, 82032864771, 7, t10);
    ghost var t11 := t10 + [DigitChar(7)];
    Step(21000413381488, 16, 12, 1312525836343, 0, t11);
    ghost var t12 := t11 + [DigitChar(0)];
    Step(336006614103815, 16, 13, 21000413381488, 7, t12);
    ghost var t13 := t12 + [DigitChar(7)];
    Step(5376105825661043, 16, 14, 336006614103815, 3, t13);
    ghost var t14 := t13 + [DigitChar(3)];
    Step(86017693210576692, 16, 15, 5376105825661043, 4, t14);
    ghost var t15 := t14 + [DigitChar(4)];
    Step(1376283091369227076, 16, 16, 86017693210576692, 4, t15);
  }

  /** The word at byte 8 of HexWords decodes to "13198a2e03707344". */
  lemma Hex1Decodes()
    ensures Fits(Uint64(HexWords, 8), 16)
    ensures DecodeWord(Uint64(HexWords, 8), 16) == "13198a2e03707344"
  {
    assert Uint64(HexWords, 8) == 1376283091369227076;
    HexWordsAlwaysFit(HexWords, 8);
    Hex1Digits();
  }

  lemma Bnd0Front()
    ensures Digits(141592653, 10, 9) == "141592653"
  {
    ghost var t0: string := [];
    Step(1, 10, 1, 0, 1, t0);
    ghost var t1 := t0 + [DigitChar(1)];
    Step(14, 10, 2, 1, 4, t1);
    ghost var t2 := t1 + [DigitChar(4)];
    Step(141, 10, 3, 14, 1, t2);
    ghost var t3 := t2 + [DigitChar(1)];
    Step(1415, 10, 4, 141, 5, t3);
    ghost var t4 := t3 + [DigitChar(5)];
    Step(14159, 10, 5, 1415, 9, t4);
    ghost var t5 := t4 + [DigitChar(9)];
    Step(141592, 10, 6, 14159, 2, t5);
    ghost var t6 := t5 + [DigitChar(2)];
    Step(1415926, 10, 7, 141592, 6, t6);
    ghost var t7 := t6 + [DigitChar(6)];
    Step(14159265, 10, 8, 1415926, 5, t7);
    ghost var t8 := t7 + [DigitChar(5)];
    Step(141592653, 10, 9, 14159265, 3, t8);
  }

  lemma Bnd0Digits()
    ensures Digits(1415926535897932384, 10, 19) == "1415926535897932384"
  {
    Bnd0Front();
    ghost var t9: string := "141592653";
    Step(1415926535, 10, 10, 141592653, 5, t9);
    ghost var t10 := t9 + [DigitChar(5)];
    Step(14159265358, 10, 11, 1415926535, 8, t10);
    ghost var t11 := t10 + [DigitChar(8)];
    Step(141592653589, 10, 12, 14159265358, 9, t11);
    ghost var t12 := t11 + [DigitChar(9)];
    Step(1415926535897, 10, 13, 141592653589, 7, t12);
    ghost var t13 := t12 + [DigitChar(7)];
    Step(14159265358979, 10, 14, 1415926535897, 9, t13);
    ghost var t14 := t13 + [DigitChar(9)];
    Step(141592653589793, 10, 15, 14159265358979, 3, t14);
    ghost var t15 := t14 + [DigitChar(3)];
    Step(1415926535897932, 10, 16, 141592653589793, 2, t15);
    ghost var t16 := t15 + [DigitChar(2)];
    Step(14159265358979323, 10, 17, 1415926535897932, 3, t16);
    ghost var t17 := t16 + [DigitChar(3)];
    Step(141592653589793238, 10, 18, 14159265358979323, 8, t17);
    ghost var t18 := t17 + [DigitChar(8)];
    Step(1415926535897932384, 10, 19, 141592653589793238, 4, t18);
  }

  /** The word at byte 0 of BoundaryPayload0 decodes to "1415926535897932384". */
  lemma Bnd0Decodes()
    ensures Fits(Uint64(BoundaryPayload0, 0), 10)
    ensures DecodeWord(Uint64(BoundaryPayload0, 0), 10) == "1415926535897932384"
  {
    assert Uint64(BoundaryPayload0, 0) == 1415926535897932384;
    PowTenNineteen();
    Bnd0Digits();
  }

  lemma Bnd1Front()
    ensures Digits(626433832, 10, 9) == "626433832"
  {
    ghost var t0: string := [];
    Step(6, 10, 1, 0, 6, t0);
    ghost var t1 := t0 + [DigitChar(6)];
    Step(62, 10, 2, 6, 2, t1);
    ghost var t2 := t1 + [DigitChar(2)];
    Step(626, 10, 3, 62, 6, t2);
    ghost var t3 := t2 + [DigitChar(6)];
    Step(6264, 10, 4, 626, 4, t3);
    ghost var t4 := t3 + [DigitChar(4)];
    Step(62643, 10, 5, 6264, 3, t4);
    ghost var t5 := t4 + [DigitChar(3)];
    Step(626433, 10, 6, 62643, 3, t5);
    ghost var t6 := t5 + [DigitChar(3)];
    Step(6264338, 10, 7, 626433, 8, t6);
    ghost var t7 := t6 + [DigitChar(8)];
    Step(62643383, 10, 8, 6264338, 3, t7);
    ghost var t8 := t7 + [DigitChar(3)];
    Step(626433832, 10, 9, 62643383, 2, t8);
  }

  lemma Bnd1Digits()
    ensures Digits(6264338327900000000, 10, 19) == "6264338327900000000"
  {
    Bnd1Front();
    ghost var t9: string := "626433832";
    Step(6264338327, 10, 10, 626433832, 7, t9);
    ghost var t10 := t9 + [DigitChar(7)];
    Step(62643383279, 10, 11, 6264338327, 9, t10);
    ghost var t11 := t10 + [DigitChar(9)];
    Step(626433832790, 10, 12, 62643383279, 0, t11);
    ghost var t12 := t11 + [DigitChar(0)];
    Step(6264338327900, 10, 13, 626433832790, 0, t12);
    ghost var t13 := t12 + [DigitChar(0)];
    Step(62643383279000, 10, 14, 6264338327900, 0, t13);
    ghost var t14 := t13 + [DigitChar(0)];
    Step(626433832790000, 10, 15, 62643383279000, 0, t14);
    ghost var t15 := t14 + [DigitChar(0)];
    Step(6264338327900000, 10, 16, 626433832790000, 0, t15);
    ghost var t16 := t15 + [DigitChar(0)];
    Step(62643383279000000, 10, 17, 6264338327900000, 0, t16);
    ghost var t17 := t16 + [DigitChar(0)];
    Step(626433832790000000, 10, 18, 62643383279000000, 0, t17);
    ghost var t18 := t17 + [DigitChar(0)];
    Step(6264338327900000000, 10, 19, 626433832790000000, 0, t18);
  }

  /** The word at byte 8 of BoundaryPayload0 decodes to "6264338327900000000". */
  lemma Bnd1Decodes()
    ensures Fits(Uint64(BoundaryPayload0, 8), 10)
    ensures DecodeWord(Uint64(BoundaryPayload0, 8), 10) == "62643383279" + "00000000"
  {
    assert Uint64(BoundaryPayload0, 8) == 6264338327900000000;
    PowTenNineteen();
    Bnd1Digits();
  }

  lemma Bnd2Front()
    ensures Digits(502884197, 10, 9) == "502884197"
  {
    ghost var t0: string := [];
    Step(5, 10, 1, 0, 5, t0);
    ghost var t1 := t0 + [DigitChar(5)];
    Step(50, 10, 2, 5, 0, t1);
    ghost var t2 := t1 + [DigitChar(0)];
    Step(502, 10, 3, 50, 2, t2);
    ghost var t3 := t2 + [DigitChar(2)];
    Step(5028, 10, 4, 502, 8, t3);
    ghost var t4 := t3 + [DigitChar(8)];
    Step(50288, 10, 5, 5028, 8, t4);
    ghost var t5 := t4 + [DigitChar(8)];
    Step(502884, 10, 6, 50288, 4, t5);
    ghost var t6 := t5 + [DigitChar(4)];
    Step(5028841, 10, 7, 502884, 1, t6);
    ghost var t7 := t6 + [DigitChar(1)];
    Step(50288419, 10, 8, 5028841, 9, t7);
    ghost var t8 := t7 + [DigitChar(9)];
    Step(502884197, 10, 9, 50288419, 7, t8);
  }

  lemma Bnd2Digits()
    ensures Digits(5028841971693993751, 10, 19) == "5028841971693993751"
  {
    Bnd2Front();
    ghost var t9: string := "502884197";
    Step(5028841971, 10, 10, 502884197, 1, t9);
    ghost var t10 := t9 + [DigitChar(1)];
    Step(50288419716, 10, 11, 5028841971, 6, t10);
    ghost var t11 := t10 + [DigitChar(6)];
    Step(502884197169, 10, 12, 50288419716, 9, t11);
    ghost var t12 := t11 + [DigitChar(9)];
    Step(5028841971693, 10, 13, 502884197169, 3, t12);
    ghost var t13 := t12 + [DigitChar(3)];
    Step(50288419716939, 10, 14, 5028841971693, 9, t13);
    ghost var t14 := t13 + [DigitChar(9)];
    Step(502884197169399, 10, 15, 50288419716939, 9, t14);
    ghost var t15 := t14 + [DigitChar(9)];
    Step(5028841971693993, 10, 16, 502884197169399, 3, t15);
    ghost var t16 := t15 + [DigitChar(3)];
    Step(50288419716939937, 10, 17, 5028841971693993, 7, t16);
    ghost var t17 := t16 + [DigitChar(7)];
    Step(502884197169399375, 10, 18, 50288419716939937, 5, t17);
    ghost var t18 := t17 + [DigitChar(5)];
    Step(5028841971693993751, 10, 19, 502884197169399375, 1, t18);
  }

  /** The word at byte 0 of BoundaryPayload1 decodes to "5028841971693993751". */
  lemma Bnd2Decodes()
    ensures Fits(Uint64(BoundaryPayload1, 0), 10)
    ensures DecodeWord(Uint64(BoundaryPayload1, 0), 10) == "5028841971693993751"
  {
    assert Uint64(BoundaryPayload1, 0) == 5028841971693993751;
    PowTenNineteen();
    Bnd2Digits();
  }

  lemma Bnd3Front()
    ensures Digits(58209749, 10, 9) == "058209749"
  {
    ghost var t0: string := [];
    Step(0, 10, 1, 0, 0, t0);
    ghost var t1 := t0 + [DigitChar(0)];
    Step(5, 10, 2, 0, 5, t1);
    ghost var t2 := t1 + [DigitChar(5)];
    Step(58, 10, 3, 5, 8, t2);
    ghost var t3 := t2 + [DigitChar(8)];
    Step(582, 10, 4, 58, 2, t3);
    ghost var t4 := t3 + [DigitChar(2)];
    Step(5820, 10, 5, 582, 0, t4);
    ghost var t5 := t4 + [DigitChar(0)];
    Step(58209, 10, 6, 5820, 9, t5);
    ghost var t6 := t5 + [DigitChar(9)];
    Step(582097, 10, 7, 58209, 7, t6);
    ghost var t7 := t6 + [DigitChar(7)];
    Step(5820974, 10, 8, 582097, 4, t7);
    ghost var t8 := t7 + [DigitChar(4)];
    Step(58209749, 10, 9, 5820974, 9, t8);
  }

  lemma Bnd3Digits()
    ensures Digits(582097494400000000, 10, 19) == "0582097494400000000"
  {
    Bnd3Front();
    ghost var t9: string := "058209749";
    Step(582097494, 10, 10, 58209749, 4, t9);
    ghost var t10 := t9 + [DigitChar(4)];
    Step(5820974944, 10, 11, 582097494, 4, t10);
    ghost var t11 := t10 + [DigitChar(4)];
    Step(58209749440, 10, 12, 5820974944, 0, t11);
    ghost var t12 := t11 + [DigitChar(0)];
    Step(582097494400, 10, 13, 58209749440, 0, t12);
    ghost var t13 := t12 + [DigitChar(0)];
    Step(5820974944000, 10, 14, 582097494400, 0, t13);
    ghost var t14 := t13 + [DigitChar(0)];
    Step(58209749440000, 10, 15, 5820974944000, 0, t14);
    ghost var t15 := t14 + [DigitChar(0)];
    Step(582097494400000, 10, 16, 58209749440000, 0, t15);
    ghost var t16 := t15 + [DigitChar(0)];
    Step(5820974944000000, 10, 17, 582097494400000, 0, t16);
    ghost var t17 := t16 + [DigitChar(0)];
    Step(58209749440000000, 10, 18, 5820974944000000, 0, t17);
    ghost var t18 := t17 + [DigitChar(0)];
    Step(582097494400000000, 10, 19, 58209749440000000, 0, t18);
  }

  /** The word at byte 8 of BoundaryPayload1 decodes to "0582097494400000000". */
  lemma Bnd3Decodes()
    ensures Fits(Uint64(BoundaryPayload1, 8), 10)
    ensures DecodeWord(Uint64(BoundaryPayload1, 8), 10) == "05820974944" + "00000000"
  {
    assert Uint64(BoundaryPayload1, 8) == 582097494400000000;
    PowTenNineteen();
    Bnd3Digits();
  }

  lemma Bnd4Front()
    ensures Digits(592307816, 10, 9) == "592307816"
  {
    ghost var t0: string := [];
    Step(5, 10, 1, 0, 5, t0);
    ghost var t1 := t0 + [DigitChar(5)];
    Step(59, 10, 2, 5, 9, t1);
    ghost var t2 := t1 + [DigitChar(9)];
    Step(592, 10, 3, 59, 2, t2);
    ghost var t3 := t2 + [DigitChar(2)];
    Step(5923, 10, 4, 592, 3, t3);
    ghost var t4 := t3 + [DigitChar(3)];
    Step(59230, 10, 5, 5923, 0, t4);
    ghost var t5 := t4 + [DigitChar(0)];
    Step(592307, 10, 6, 59230, 7, t5);
    ghost var t6 := t5 + [DigitChar(7)];
    Step(5923078, 10, 7, 592307, 8, t6);
    ghost var t7 := t6 + [DigitChar(8)];
    Step(59230781, 10, 8, 5923078, 1, t7);
    ghost var t8 := t7 + [DigitChar(1)];
    Step(592307816, 10, 9, 59230781, 6, t8);
  }

  lemma Bnd4Digits()
    ensures Digits(5923078164062862089, 10, 19) == "5923078164062862089"
  {
    Bnd4Front();
    ghost var t9: string := "592307816";
    Step(5923078164, 10, 10, 592307816, 4, t9);
    ghost var t10 := t9 + [DigitChar(4)];
    Step(59230781640, 10, 11, 5923078164, 0, t10);
    ghost var t11 := t10 + [DigitChar(0)];
    Step(592307816406, 10, 12, 59230781640, 6, t11);
    ghost var t12 := t11 + [DigitChar(6)];
    Step(5923078164062, 10, 13, 592307816406, 2, t12);
    ghost var t13 := t12 + [DigitChar(2)];
    Step(59230781640628, 10, 14, 5923078164062, 8, t13);
    ghost var t14 := t13 + [DigitChar(8)];
    Step(592307816406286, 10, 15, 59230781640628, 6, t14);
    ghost var t15 := t14 + [DigitChar(6)];
    Step(5923078164062862, 10, 16, 592307816406286, 2, t15);
    ghost var t16 := t15 + [DigitChar(2)];
    Step(59230781640628620, 10, 17, 5923078164062862, 0, t16);
    ghost var t17 := t16 + [DigitChar(0)];
    Step(592307816406286208, 10, 18, 59230781640628620, 8, t17);
    ghost var t18 := t17 + [DigitChar(8)];
    Step(5923078164062862089, 10, 19, 592307816406286208, 9, t18);
  }

  /** The word at byte 0 of BoundaryPayload2 decodes to "5923078164062862089". */
  lemma Bnd4Decodes()
    ensures Fits(Uint64(BoundaryPayload2, 0), 10)
    ensures DecodeWord(Uint64(BoundaryPayload2, 0), 10) == "5923078164062862089"
  {
    assert Uint64(BoundaryPayload2, 0) == 5923078164062862089;
    PowTenNineteen();
    Bnd4Digits();
  }

  lemma Bnd5Front()
    ensures Digits(986280348, 10, 9) == "986280348"
  {
    ghost var t0: string := [];
    Step(9, 10, 1, 0, 9, t0);
    ghost var t1 := t0 + [DigitChar(9)];
    Step(98, 10, 2, 9, 8, t1);
    ghost var t2 := t1 + [DigitChar(8)];
    Step(986, 10, 3, 98, 6, t2);
    ghost var t3 := t2 + [DigitChar(6)];
    Step(9862, 10, 4, 986, 2, t3);
    ghost var t4 := t3 + [DigitChar(2)];
    Step(98628, 10, 5, 9862, 8, t4);
    ghost var t5 := t4 + [DigitChar(8)];
    Step(986280, 10, 6, 98628, 0, t5);
    ghost var t6 := t5 + [DigitChar(0)];
    Step(9862803, 10, 7, 986280, 3, t6);
    ghost var t7 := t6 + [DigitChar(3)];
    Step(98628034, 10, 8, 9862803, 4, t7);
    ghost var t8 := t7 + [DigitChar(4)];
    Step(986280348, 10, 9, 98628034, 8, t8);
  }

  lemma Bnd5Digits()
    ensures Digits(9862803482500000000, 10, 19) == "9862803482500000000"
  {
    Bnd5Front();
    ghost var t9: string := "986280348";
    Step(9862803482, 10, 10, 986280348, 2, t9);
    ghost var t10 := t9 + [DigitChar(2)];
    Step(98628034825, 10, 11, 9862803482, 5, t10);
    ghost var t11 := t10 + [DigitChar(5)];
    Step(986280348250, 10, 12, 98628034825, 0, t11);
    ghost var t12 := t11 + [DigitChar(0)];
    Step(9862803482500, 10, 13, 986280348250, 0, t12);
    ghost var t13 := t12 + [DigitChar(0)];
    Step(98628034825000, 10, 14, 9862803482500, 0, t13);
    ghost var t14 := t13 + [DigitChar(0)];
    Step(986280348250000, 10, 15, 98628034825000, 0, t14);
    ghost var t15 := t14 + [DigitChar(0)];
    Step(9862803482500000, 10, 16, 986280348250000, 0, t15);
    ghost var t16 := t15 + [DigitChar(0)];
    Step(98628034825000000, 10, 17, 9862803482500000, 0, t16);
    ghost var t17 := t16 + [DigitChar(0)];
    Step(986280348250000000, 10, 18, 98628034825000000, 0, t17);
    ghost var t18 := t17 + [DigitChar(0)];
    Step(9862803482500000000, 10, 19, 986280348250000000, 0, t18);
  }

  /** The word at byte 8 of BoundaryPayload2 decodes to "9862803482500000000". */
  lemma Bnd5Decodes()
    ensures Fits(Uint64(BoundaryPayload2, 8), 10)
    ensures DecodeWord(Uint64(BoundaryPayload2, 8), 10) == "98628034825" + "00000000"
  {
    assert Uint64(BoundaryPayload2, 8) == 9862803482500000000;
    PowTenNineteen();
    Bnd5Digits();
  }

  lemma Bnd6Front()
    ensures Digits(342117067, 10, 9) == "342117067"
  {
    ghost var t0: string := [];
    Step(3, 10, 1, 0, 3, t0);
    ghost var t1 := t0 + [DigitChar(3)];
    Step(34, 10, 2, 3, 4, t1);
    ghost var t2 := t1 + [DigitChar(4)];
    Step(342, 10, 3, 34, 2, t2);
    ghost var t3 := t2 + [DigitChar(2)];
    Step(3421, 10, 4, 342, 1, t3);
    ghost var t4 := t3 + [DigitChar(1)];
    Step(34211, 10, 5, 3421, 1, t4);
    ghost var t5 := t4 + [DigitChar(1)];
    Step(342117, 10, 6, 34211, 7, t5);
    ghost var t6 := t5 + [DigitChar(7)];
    Step(3421170, 10, 7, 342117, 0, t6);
    ghost var t7 := t6 + [DigitChar(0)];
    Step(34211706, 10, 8, 3421170, 6, t7);
    ghost var t8 := t7 + [DigitChar(6)];
    Step(342117067, 10, 9, 34211706, 7, t8);
  }

  lemma Bnd6Digits()
    ensures Digits(3421170679000000000, 10, 19) == "3421170679000000000"
  {
    Bnd6Front();
    ghost var t9: string := "342117067";
    Step(3421170679, 10, 10, 342117067, 9, t9);
    ghost var t10 := t9 + [DigitChar(9)];
    Step(34211706790, 10, 11, 3421170679, 0, t10);
    ghost var t11 := t10 + [DigitChar(0)];
    Step(342117067900, 10, 12, 34211706790, 0, t11);
    ghost var t12 := t11 + [DigitChar(0)];
    Step(3421170679000, 10, 13, 342117067900, 0, t12);
    ghost var t13 := t12 + [DigitChar(0)];
    Step(34211706790000, 10, 14, 3421170679000, 0, t13);
    ghost var t14 := t13 + [DigitChar(0)];
    Step(342117067900000, 10, 15, 34211706790000, 0, t14);
    ghost var t15 := t14 + [DigitChar(0)];
    Step(3421170679000000, 10, 16, 342117067900000, 0, t15);
    ghost var t16 := t15 + [DigitChar(0)];
    Step(34211706790000000, 10, 17, 3421170679000000, 0, t16);
    ghost var t17 := t16 + [DigitChar(0)];
    Step(342117067900000000, 10, 18, 34211706790000000, 0, t17);
    ghost var t18 := t17 + [DigitChar(0)];
    Step(3421170679000000000, 10, 19, 342117067900000000, 0, t18);
  }

  /** The word at byte 0 of BoundaryLead3 decodes to "3421170679000000000". */
  lemma Bnd6Decodes()
    ensures Fits(Uint64(BoundaryLead3, 0), 10)
    ensures DecodeWord(Uint64(BoundaryLead3, 0), 10) == "3421170679" + "000000000"
  {
    assert Uint64(BoundaryLead3, 0) == 3421170679000000000;
    PowTenNineteen();
    Bnd6Digits();
  }

  /** A block of two packed words decodes when both words fit, and its
      words are read at bytes 0 and 8 of its payload. */
  lemma TwoWordBlockOk(b: Block)
    requires |b.payload| == 2 * WordBytes
    requires b.blockSize <= 2 * DigitsPerWord(b.radix)
    requires Fits(Uint64(b.payload, 0), b.radix) && Fits(Uint64(b.payload, WordBytes), b.radix)
    ensures BlockOk(b) && WordCount(b) == 2
    ensures WordAt(b, 0) == Uint64(b.payload, 0) && WordAt(b, 1) == Uint64(b.payload, WordBytes)
  {
    assert WordCount(b) == 2;
    forall j | 0 <= j < WordCount(b) ensures Fits(WordAt(b, j), b.radix) {
      assert j == 0 || j == 1;
    }
  }

  lemma ConcatTwo(ps: seq<string>)
    requires |ps| == 2
    ensures Concat(ps) == ps[0] + ps[1]
  {
    var c1 := ps[..1];
    assert c1[..0] == [] && ps[..|ps| - 1] == c1;
    assert Concat(c1) == ps[0];
  }

  /** A two-word block whose words decode to `da` and `db` contributes the
      first `blockSize` digits of `da + db`. */
  lemma TwoWordBlock(b: Block, da: string, db: string)
    requires |b.payload| == 2 * WordBytes
    requires b.blockSize <= 2 * DigitsPerWord(b.radix)
    requires Fits(Uint64(b.payload, 0), b.radix) && Fits(Uint64(b.payload, WordBytes), b.radix)
    requires DecodeWord(Uint64(b.payload, 0), b.radix) == da
    requires DecodeWord(Uint64(b.payload, WordBytes), b.radix) == db
    ensures BlockOk(b) && BlockDigits(b) == (da + db)[..b.blockSize]
  {
    TwoWordBlockOk(b);
    var ws := WordStrings(b);
    ConcatTwo(ws);
    assert ws[0] == da && ws[1] == db;
  }

  /** A two-word block that ends inside its second word: when the first
      word decodes to `da` and the second to `dh + dt` with `|da| + |dh|`
      the block size, the block contributes `da + dh`. */
  lemma TwoWordBlockCut(b: Block, da: string, dh: string, dt: string)
    requires |b.payload| == 2 * WordBytes
    requires b.blockSize == |da| + |dh| <= 2 * DigitsPerWord(b.radix)
    requires Fits(Uint64(b.payload, 0), b.radix) && Fits(Uint64(b.payload, WordBytes), b.radix)
    requires DecodeWord(Uint64(b.payload, 0), b.radix) == da
    requires DecodeWord(Uint64(b.payload, WordBytes), b.radix) == dh + dt
    ensures BlockOk(b) && BlockDigits(b) == da + dh
  {
    TwoWordBlock(b, da, dh + dt);
    assert (da + (dh + dt))[..|da| + |dh|] == da + dh;
  }

  /** A one-block catalog that declares no total streams its block's digits. */
  lemma OneBlockStream(b: Block)
    requires BlockOk(b) && b.totalDigits == 0
    ensures CatalogOk([b]) && Stream([b]) == BlockDigits(b)
  {
    SingletonRaw(b);
  }

  /** The decimal single-block test, cut to its first two words: the stream
      is the two words' digits, in order. */
  lemma DecimalTwoWords()
    ensures CatalogOk([Block(10, 38, 0, DecWords)])
    ensures Stream([Block(10, 38, 0, DecWords)]) == "1415926535897932384" + ("626433" + "8327950288419")
  {
    var b := Block(10, 38, 0, DecWords);
    Dec0Decodes();
    Dec1Decodes();
    TwoWordBlockCut(b, "1415926535897932384", "626433" + "8327950288419", []);
    OneBlockStream(b);
  }

  /** The hexadecimal single-block test, cut to its first two words. */
  lemma HexTwoWords()
    ensures CatalogOk([Block(16, 32, 0, HexWords)])
    ensures Stream([Block(16, 32, 0, HexWords)]) == "243f6a8885a308d3" + "13198a2e03707344"
  {
    var b := Block(16, 32, 0, HexWords);
    Hex0Decodes();
    Hex1Decodes();
    TwoWordBlockCut(b, "243f6a8885a308d3", "13198a2e03707344", []);
    OneBlockStream(b);
  }

  /** A block size that is not a multiple of 19 cuts the last word: a
      25-digit block of these two words streams 19 digits of the first and
      6 of the second. */
  lemma DecimalBlockSizeCuts()
    ensures CatalogOk([Block(10, 25, 0, DecWords)])
    ensures Stream([Block(10, 25, 0, DecWords)]) == "1415926535897932384" + "626433"
  {
    var b := Block(10, 25, 0, DecWords);
    Dec0Decodes();
    Dec1Decodes();
    TwoWordBlockCut(b, "1415926535897932384", "626433", "8327950288419");
    OneBlockStream(b);
  }

  /** The first 100 decimal digits of pi after the leading 3, split where
      the boundary catalog's words and blocks split them. */
  const Pi100: string :=
    "1415926535897932384" + "62643383279" + "5028841971693993751" + "05820974944"
    + "5923078164062862089" + "98628034825" + "3421170679"

  /** The word of zeros the boundary test stores last. */
  const ZeroWord: seq<byte> := [0, 0, 0, 0, 0, 0, 0, 0]

  /** The boundary catalog: four decimal blocks of two words each, 30 digits
      per block, the last declaring a total of 100 digits; `last` is the
      last block's second word, which the test fills with zeros. */
  function BoundaryBlocks(last: seq<byte>): seq<Block>
  {
    [ Block(10, 30, 0, BoundaryPayload0),
      Block(10, 30, 0, BoundaryPayload1),
      Block(10, 30, 0, BoundaryPayload2),
      Block(10, 30, 100, BoundaryLead3 + last) ]
  }

  lemma Uint64OfJoin(a: seq<byte>, b: seq<byte>)
    requires |a| == WordBytes && |b| == WordBytes
    ensures Uint64(a + b, 0) == Uint64(a, 0) && Uint64(a + b, WordBytes) == Uint64(b, 0)
  {
  }

  /** Block 0 of the boundary catalog: its first word whole and the first
      11 digits of its second. */
  lemma BoundaryBlock0()
    ensures BlockOk(Block(10, 30, 0, BoundaryPayload0))
    ensures BlockDigits(Block(10, 30, 0, BoundaryPayload0)) == "1415926535897932384" + "62643383279"
  {
    Bnd0Decodes(); Bnd1Decodes();
    TwoWordBlockCut(Block(10, 30, 0, BoundaryPayload0), "1415926535897932384", "62643383279", "00000000");
  }

  lemma BoundaryBlock1()
    ensures BlockOk(Block(10, 30, 0, BoundaryPayload1))
    ensures BlockDigits(Block(10, 30, 0, BoundaryPayload1)) == "5028841971693993751" + "05820974944"
  {
    Bnd2Decodes(); Bnd3Decodes();
    TwoWordBlockCut(Block(10, 30, 0, BoundaryPayload1), "5028841971693993751", "05820974944", "00000000");
  }

  lemma BoundaryBlock2()
    ensures BlockOk(Block(10, 30, 0, BoundaryPayload2))
    ensures BlockDigits(Block(10, 30, 0, BoundaryPayload2)) == "5923078164062862089" + "98628034825"
  {
    Bnd4Decodes(); Bnd5Decodes();
    TwoWordBlockCut(Block(10, 30, 0, BoundaryPayload2), "5923078164062862089", "98628034825", "00000000");
  }

  /** Block 3 of the boundary catalog, whatever its second word: it begins
      with the 10 digits that the declared total lets through. */
  lemma BoundaryBlock3(last: seq<byte>)
    requires |last| == WordBytes && Fits(Uint64(last, 0), 10)
    ensures BlockOk(Block(10, 30, 100, BoundaryLead3 + last))
    ensures BlockDigits(Block(10, 30, 100, BoundaryLead3 + last)) ==
      "3421170679" + ("000000000" + DecodeWord(Uint64(last, 0), 10))[..20]
  {
    Bnd6Decodes();
    Uint64OfJoin(BoundaryLead3, last);
    var dl := DecodeWord(Uint64(last, 0), 10);
    TwoWordBlock(Block(10, 30, 100, BoundaryLead3 + last), "3421170679" + "000000000", dl);
    CutInSecond("3421170679", "000000000", dl, 30);
  }

  /** What each boundary block contributes, whatever word is stored last. */
  lemma BoundaryPieces(last: seq<byte>)
    requires |last| == WordBytes && Fits(Uint64(last, 0), 10)
    ensures BlocksOk(BoundaryBlocks(last))
    ensures BlockDigits(BoundaryBlocks(last)[0]) == "1415926535897932384" + "62643383279"
    ensures BlockDigits(BoundaryBlocks(last)[1]) == "5028841971693993751" + "05820974944"
    ensures BlockDigits(BoundaryBlocks(last)[2]) == "5923078164062862089" + "98628034825"
    ensures BlockDigits(BoundaryBlocks(last)[3]) ==
      "3421170679" + ("000000000" + DecodeWord(Uint64(last, 0), 10))[..20]
  {
    var bs := BoundaryBlocks(last);
    BoundaryBlock0();
    BoundaryBlock1();
    BoundaryBlock2();
    BoundaryBlock3(last);
    forall k | 0 <= k < |bs| ensures BlockOk(bs[k]) {
      assert k == 0 || k == 1 || k == 2 || k == 3;
    }
  }

  lemma CutInSecond(h: string, t: string, y: string, n: nat)
    requires |h| <= n <= |h + t + y|
    ensures ((h + t) + y)[..n] == h + (t + y)[..n - |h|]
  {
  }

  lemma ConcatFour(ps: seq<string>)
    requires |ps| == 4
    ensures Concat(ps) == ps[0] + ps[1] + ps[2] + ps[3]
  {
    var c0, c1, c2, c3 := ps[..0], ps[..1], ps[..2], ps[..3];
    assert c0 == [] && c1[..0] == c0 && c2[..1] == c1 && c3[..2] == c2 && ps[..3] == c3;
    assert Concat(c1) == ps[0];
    assert Concat(c2) == ps[0] + ps[1];
    assert Concat(c3) == ps[0] + ps[1] + ps[2];
  }

  /** Four blocks in a row contribute their digits in order. */
  lemma FourBlocks(bs: seq<Block>)
    requires |bs| == 4 && BlocksOk(bs)
    ensures Raw(bs) == BlockDigits(bs[0]) + BlockDigits(bs[1]) + BlockDigits(bs[2]) + BlockDigits(bs[3])
  {
    var ps := Pieces(bs);
    ConcatFour(ps);
    assert ps[0] == BlockDigits(bs[0]) && ps[1] == BlockDigits(bs[1]);
    assert ps[2] == BlockDigits(bs[2]) && ps[3] == BlockDigits(bs[3]);
  }

  /** Cutting four 30-digit pieces at 100 keeps three and the first 10 of the fourth. */
  lemma CutAfterThree(a0: string, a1: string, b0: string, b1: string, c0: string, c1: string,
                      h: string, r: string)
    requires |a0 + a1| == 30 && |b0 + b1| == 30 && |c0 + c1| == 30 && |h| == 10 && |r| == 20
    ensures ((a0 + a1) + (b0 + b1) + (c0 + c1) + (h + r))[..100] == a0 + a1 + b0 + b1 + c0 + c1 + h
  {
    var s := (a0 + a1) + (b0 + b1) + (c0 + c1) + (h + r);
    assert s == (a0 + a1 + b0 + b1 + c0 + c1 + h) + r;
  }

  /** The boundary catalog's stream is exactly the first 100 digits: each
      block contributes only its first 30, the declared total cuts the last
      block after 10, and whatever word is stored last is never used. */
  lemma BoundaryStream(last: seq<byte>)
    requires |last| == WordBytes && Fits(Uint64(last, 0), 10)
    ensures CatalogOk(BoundaryBlocks(last))
    ensures Stream(BoundaryBlocks(last)) == Pi100
  {
    var bs := BoundaryBlocks(last);
    BoundaryPieces(last);
    FourBlocks(bs);
    assert bs[..3][..2][..1][..0] == [];
    assert DeclaredTotal(bs) == 100;
    CutAfterThree("1415926535897932384", "62643383279", "5028841971693993751", "05820974944",
      "5923078164062862089", "98628034825", "3421170679",
      ("000000000" + DecodeWord(Uint64(last, 0), 10))[..20]);
  }

  /** The test's own catalog, with its word of zeros. */
  lemma BoundaryCatalogStream()
    ensures CatalogOk(BoundaryBlocks(ZeroWord))
    ensures Stream(BoundaryBlocks(ZeroWord)) == Pi100
  {
    assert Uint64(ZeroWord, 0) == 0;
    BoundaryStream(ZeroWord);
  }
}
