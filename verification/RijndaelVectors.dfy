/** The worked example of FIPS 197, the key expansion of appendix A.1 with the cipher of appendix B, as known answers
    for the schedule and the cipher. */
module RijndaelVectors {

  import opened RijndaelBox
  import opened RijndaelField
  import opened Rijndael
  import opened RijndaelRounds
  import opened RijndaelKeys

  const KEY: seq<bv8> := [0x2b, 0x7e, 0x15, 0x16, 0x28, 0xae, 0xd2, 0xa6, 0xab, 0xf7, 0x15, 0x88, 0x09, 0xcf, 0x4f,
    0x3c]
  const PLAIN: seq<bv8> := [0x32, 0x43, 0xf6, 0xa8, 0x88, 0x5a, 0x30, 0x8d, 0x31, 0x31, 0x98, 0xa2, 0xe0, 0x37, 0x07,
    0x34]

  /** Word k of the schedule of the key. */
  ghost predicate Expands(k: nat, w: Word)
  {
    |KEY| == 16 && Schedule(KEY, 4, k) == w
  }

  /** Four words in a row. */
  ghost predicate Turn(i: nat, k: Block)
  {
    Expands(4 * i, k.s0) && Expands(4 * i + 1, k.s1) && Expands(4 * i + 2, k.s2) && Expands(4 * i + 3, k.s3)
  }

  /** The turn after the words of k, with the i-th power of x. */
  function NextTurn(k: Block, power: bv8): Block
  {
    var t := k.s3;
    var w0 := Word(Add(Add(k.s0.b3, S(t.b2)), power), Add(k.s0.b2, S(t.b1)), Add(k.s0.b1, S(t.b0)),
                   Add(k.s0.b0, S(t.b3)));
    var w1 := Xor(k.s1, w0);
    var w2 := Xor(k.s2, w1);
    Block(w0, w1, w2, Xor(k.s3, w2))
  }

  lemma {:induction false} TurnNext(i: nat, k: Block)
    requires i < 10 && Turn(i, k)
    ensures Turn(i + 1, NextTurn(k, Power(i)))
  {
    hide Schedule, S, Add, Power;
    FirstByBytes(KEY, 4, i);
    var n := 4 * i + 4;
    OtherByBytes(KEY, 4, n + 1);
    OtherByBytes(KEY, 4, n + 2);
    OtherByBytes(KEY, 4, n + 3);
  }

  lemma {:induction false} Turn0()
    ensures Turn(0, Block(Word(0x2b, 0x7e, 0x15, 0x16), Word(0x28, 0xae, 0xd2, 0xa6),
                          Word(0xab, 0xf7, 0x15, 0x88), Word(0x09, 0xcf, 0x4f, 0x3c)))
  {
    KeyWord(KEY, 4, 0);
    KeyWord(KEY, 4, 1);
    KeyWord(KEY, 4, 2);
    KeyWord(KEY, 4, 3);
    hide Schedule;
  }

  lemma {:induction false} Turn1()
    ensures Turn(1, Block(Word(0xa0, 0xfa, 0xfe, 0x17), Word(0x88, 0x54, 0x2c, 0xb1),
                          Word(0x23, 0xa3, 0x39, 0x39), Word(0x2a, 0x6c, 0x76, 0x05)))
  {
    hide Turn, Power;
    Turn0();
    PowerValues();
    var k := Block(Word(0x2b, 0x7e, 0x15, 0x16), Word(0x28, 0xae, 0xd2, 0xa6),
                   Word(0xab, 0xf7, 0x15, 0x88), Word(0x09, 0xcf, 0x4f, 0x3c));
    TurnNext(0, k);
    assert NextTurn(k, 0x01) == Block(Word(0xa0, 0xfa, 0xfe, 0x17), Word(0x88, 0x54, 0x2c, 0xb1),
                                      Word(0x23, 0xa3, 0x39, 0x39), Word(0x2a, 0x6c, 0x76, 0x05));
  }

  lemma {:induction false} Turn2()
    ensures Turn(2, Block(Word(0xf2, 0xc2, 0x95, 0xf2), Word(0x7a, 0x96, 0xb9, 0x43),
                          Word(0x59, 0x35, 0x80, 0x7a), Word(0x73, 0x59, 0xf6, 0x7f)))
  {
    hide Turn, Power;
    Turn1();
    PowerValues();
    var k := Block(Word(0xa0, 0xfa, 0xfe, 0x17), Word(0x88, 0x54, 0x2c, 0xb1),
                   Word(0x23, 0xa3, 0x39, 0x39), Word(0x2a, 0x6c, 0x76, 0x05));
    TurnNext(1, k);
    assert NextTurn(k, 0x02) == Block(Word(0xf2, 0xc2, 0x95, 0xf2), Word(0x7a, 0x96, 0xb9, 0x43),
                                      Word(0x59, 0x35, 0x80, 0x7a), Word(0x73, 0x59, 0xf6, 0x7f));
  }

  lemma {:induction false} Turn3()
    ensures Turn(3, Block(Word(0x3d, 0x80, 0x47, 0x7d), Word(0x47, 0x16, 0xfe, 0x3e),
                          Word(0x1e, 0x23, 0x7e, 0x44), Word(0x6d, 0x7a, 0x88, 0x3b)))
  {
    hide Turn, Power;
    Turn2();
    PowerValues();
    var k := Block(Word(0xf2, 0xc2, 0x95, 0xf2), Word(0x7a, 0x96, 0xb9, 0x43),
                   Word(0x59, 0x35, 0x80, 0x7a), Word(0x73, 0x59, 0xf6, 0x7f));
    TurnNext(2, k);
    assert NextTurn(k, 0x04) == Block(Word(0x3d, 0x80, 0x47, 0x7d), Word(0x47, 0x16, 0xfe, 0x3e),
                                      Word(0x1e, 0x23, 0x7e, 0x44), Word(0x6d, 0x7a, 0x88, 0x3b));
  }

  lemma {:induction false} Turn4()
    ensures Turn(4, Block(Word(0xef, 0x44, 0xa5, 0x41), Word(0xa8, 0x52, 0x5b, 0x7f),
                          Word(0xb6, 0x71, 0x25, 0x3b), Word(0xdb, 0x0b, 0xad, 0x00)))
  {
    hide Turn, Power;
    Turn3();
    PowerValues();
    var k := Block(Word(0x3d, 0x80, 0x47, 0x7d), Word(0x47, 0x16, 0xfe, 0x3e),
                   Word(0x1e, 0x23, 0x7e, 0x44), Word(0x6d, 0x7a, 0x88, 0x3b));
    TurnNext(3, k);
    assert NextTurn(k, 0x08) == Block(Word(0xef, 0x44, 0xa5, 0x41), Word(0xa8, 0x52, 0x5b, 0x7f),
                                      Word(0xb6, 0x71, 0x25, 0x3b), Word(0xdb, 0x0b, 0xad, 0x00));
  }

  lemma {:induction false} Turn5()
    ensures Turn(5, Block(Word(0xd4, 0xd1, 0xc6, 0xf8), Word(0x7c, 0x83, 0x9d, 0x87),
                          Word(0xca, 0xf2, 0xb8, 0xbc), Word(0x11, 0xf9, 0x15, 0xbc)))
  {
    hide Turn, Power;
    Turn4();
    PowerValues();
    var k := Block(Word(0xef, 0x44, 0xa5, 0x41), Word(0xa8, 0x52, 0x5b, 0x7f),
                   Word(0xb6, 0x71, 0x25, 0x3b), Word(0xdb, 0x0b, 0xad, 0x00));
    TurnNext(4, k);
    assert NextTurn(k, 0x10) == Block(Word(0xd4, 0xd1, 0xc6, 0xf8), Word(0x7c, 0x83, 0x9d, 0x87),
                                      Word(0xca, 0xf2, 0xb8, 0xbc), Word(0x11, 0xf9, 0x15, 0xbc));
  }

  lemma {:induction false} Turn6()
    ensures Turn(6, Block(Word(0x6d, 0x88, 0xa3, 0x7a), Word(0x11, 0x0b, 0x3e, 0xfd),
                          Word(0xdb, 0xf9, 0x86, 0x41), Word(0xca, 0x00, 0x93, 0xfd)))
  {
    hide Turn, Power;
    Turn5();
    PowerValues();
    var k := Block(Word(0xd4, 0xd1, 0xc6, 0xf8), Word(0x7c, 0x83, 0x9d, 0x87),
                   Word(0xca, 0xf2, 0xb8, 0xbc), Word(0x11, 0xf9, 0x15, 0xbc));
    TurnNext(5, k);
    assert NextTurn(k, 0x20) == Block(Word(0x6d, 0x88, 0xa3, 0x7a), Word(0x11, 0x0b, 0x3e, 0xfd),
                                      Word(0xdb, 0xf9, 0x86, 0x41), Word(0xca, 0x00, 0x93, 0xfd));
  }

  lemma {:induction false} Turn7()
    ensures Turn(7, Block(Word(0x4e, 0x54, 0xf7, 0x0e), Word(0x5f, 0x5f, 0xc9, 0xf3),
                          Word(0x84, 0xa6, 0x4f, 0xb2), Word(0x4e, 0xa6, 0xdc, 0x4f)))
  {
    hide Turn, Power;
    Turn6();
    PowerValues();
    var k := Block(Word(0x6d, 0x88, 0xa3, 0x7a), Word(0x11, 0x0b, 0x3e, 0xfd),
                   Word(0xdb, 0xf9, 0x86, 0x41), Word(0xca, 0x00, 0x93, 0xfd));
    TurnNext(6, k);
    assert NextTurn(k, 0x40) == Block(Word(0x4e, 0x54, 0xf7, 0x0e), Word(0x5f, 0x5f, 0xc9, 0xf3),
                                      Word(0x84, 0xa6, 0x4f, 0xb2), Word(0x4e, 0xa6, 0xdc, 0x4f));
  }

  lemma {:induction false} Turn8()
    ensures Turn(8, Block(Word(0xea, 0xd2, 0x73, 0x21), Word(0xb5, 0x8d, 0xba, 0xd2),
                          Word(0x31, 0x2b, 0xf5, 0x60), Word(0x7f, 0x8d, 0x29, 0x2f)))
  {
    hide Turn, Power;
    Turn7();
    PowerValues();
    var k := Block(Word(0x4e, 0x54, 0xf7, 0x0e), Word(0x5f, 0x5f, 0xc9, 0xf3),
                   Word(0x84, 0xa6, 0x4f, 0xb2), Word(0x4e, 0xa6, 0xdc, 0x4f));
    TurnNext(7, k);
    assert NextTurn(k, 0x80) == Block(Word(0xea, 0xd2, 0x73, 0x21), Word(0xb5, 0x8d, 0xba, 0xd2),
                                      Word(0x31, 0x2b, 0xf5, 0x60), Word(0x7f, 0x8d, 0x29, 0x2f));
  }

  lemma {:induction false} Turn9()
    ensures Turn(9, Block(Word(0xac, 0x77, 0x66, 0xf3), Word(0x19, 0xfa, 0xdc, 0x21),
                          Word(0x28, 0xd1, 0x29, 0x41), Word(0x57, 0x5c, 0x00, 0x6e)))
  {
    hide Turn, Power;
    Turn8();
    PowerValues();
    var k := Block(Word(0xea, 0xd2, 0x73, 0x21), Word(0xb5, 0x8d, 0xba, 0xd2),
                   Word(0x31, 0x2b, 0xf5, 0x60), Word(0x7f, 0x8d, 0x29, 0x2f));
    TurnNext(8, k);
    assert NextTurn(k, 0x1b) == Block(Word(0xac, 0x77, 0x66, 0xf3), Word(0x19, 0xfa, 0xdc, 0x21),
                                      Word(0x28, 0xd1, 0x29, 0x41), Word(0x57, 0x5c, 0x00, 0x6e));
  }

  lemma {:induction false} Turn10()
    ensures Turn(10, Block(Word(0xd0, 0x14, 0xf9, 0xa8), Word(0xc9, 0xee, 0x25, 0x89),
                           Word(0xe1, 0x3f, 0x0c, 0xc8), Word(0xb6, 0x63, 0x0c, 0xa6)))
  {
    hide Turn, Power;
    Turn9();
    PowerValues();
    var k := Block(Word(0xac, 0x77, 0x66, 0xf3), Word(0x19, 0xfa, 0xdc, 0x21),
                   Word(0x28, 0xd1, 0x29, 0x41), Word(0x57, 0x5c, 0x00, 0x6e));
    TurnNext(9, k);
    assert NextTurn(k, 0x36) == Block(Word(0xd0, 0x14, 0xf9, 0xa8), Word(0xc9, 0xee, 0x25, 0x89),
                                      Word(0xe1, 0x3f, 0x0c, 0xc8), Word(0xb6, 0x63, 0x0c, 0xa6));
  }

  lemma {:induction false} TurnIsKey(rk: seq<Word>, i: nat, k: Block)
    requires |KEY| == 16 && Filled(rk, KEY, 4, 44) && i <= 10 && Turn(i, k)
    ensures 44 <= |rk| && RoundKey(rk, i) == k
  {
    hide Schedule;
  }

  /** The state after r rounds. */
  ghost predicate Reaches(rk: seq<Word>, r: nat, s: Block)
  {
    |PLAIN| == 16 && 44 <= |rk| && r <= 9 && State(LoadBlock(PLAIN), rk, r) == s
  }

  lemma {:induction false} ReachesNext(rk: seq<Word>, r: nat, s: Block, k: Block)
    requires 1 <= r <= 9 && Reaches(rk, r - 1, s) && RoundKey(rk, r) == k
    ensures Reaches(rk, r, XorBlock(MixColumns(ShiftRows(SubBytes(s))), k))
  {
    hide XorBlock, MixColumns, ShiftRows, SubBytes, RoundKey, LoadBlock;
  }

  lemma {:induction false} Round0(rk: seq<Word>)
    requires |KEY| == 16 && Filled(rk, KEY, 4, 44)
    ensures Reaches(rk, 0, Block(Word(0x19, 0x3d, 0xe3, 0xbe), Word(0xa0, 0xf4, 0xe2, 0x2b),
                                 Word(0x9a, 0xc6, 0x8d, 0x2a), Word(0xe9, 0xf8, 0x48, 0x08)))
  {
    hide Filled, Turn, RoundKey;
    Turn0();
    TurnIsKey(rk, 0, Block(Word(0x2b, 0x7e, 0x15, 0x16), Word(0x28, 0xae, 0xd2, 0xa6),
                           Word(0xab, 0xf7, 0x15, 0x88), Word(0x09, 0xcf, 0x4f, 0x3c)));
  }

  lemma {:induction false} Round1(rk: seq<Word>)
    requires |KEY| == 16 && Filled(rk, KEY, 4, 44)
    ensures Reaches(rk, 1, Block(Word(0xa4, 0x9c, 0x7f, 0xf2), Word(0x68, 0x9f, 0x35, 0x2b),
                                 Word(0x6b, 0x5b, 0xea, 0x43), Word(0x02, 0x6a, 0x50, 0x49)))
  {
    hide Filled, Turn, RoundKey, Reaches;
    Round0(rk);
    Turn1();
    var k := Block(Word(0xa0, 0xfa, 0xfe, 0x17), Word(0x88, 0x54, 0x2c, 0xb1),
                   Word(0x23, 0xa3, 0x39, 0x39), Word(0x2a, 0x6c, 0x76, 0x05));
    var s := Block(Word(0x19, 0x3d, 0xe3, 0xbe), Word(0xa0, 0xf4, 0xe2, 0x2b),
                   Word(0x9a, 0xc6, 0x8d, 0x2a), Word(0xe9, 0xf8, 0x48, 0x08));
    TurnIsKey(rk, 1, k);
    ReachesNext(rk, 1, s, k);
    var t := Block(Word(0xd4, 0xbf, 0x5d, 0x30), Word(0xe0, 0xb4, 0x52, 0xae),
                   Word(0xb8, 0x41, 0x11, 0xf1), Word(0x1e, 0x27, 0x98, 0xe5));
    assert ShiftRows(SubBytes(s)) == t;
    assert XorBlock(MixColumns(t), k) == Block(Word(0xa4, 0x9c, 0x7f, 0xf2), Word(0x68, 0x9f, 0x35, 0x2b),
                                               Word(0x6b, 0x5b, 0xea, 0x43), Word(0x02, 0x6a, 0x50, 0x49));
  }

  lemma {:induction false} Round2(rk: seq<Word>)
    requires |KEY| == 16 && Filled(rk, KEY, 4, 44)
    ensures Reaches(rk, 2, Block(Word(0xaa, 0x8f, 0x5f, 0x03), Word(0x61, 0xdd, 0xe3, 0xef),
                                 Word(0x82, 0xd2, 0x4a, 0xd2), Word(0x68, 0x32, 0x46, 0x9a)))
  {
    hide Filled, Turn, RoundKey, Reaches;
    Round1(rk);
    Turn2();
    var k := Block(Word(0xf2, 0xc2, 0x95, 0xf2), Word(0x7a, 0x96, 0xb9, 0x43),
                   Word(0x59, 0x35, 0x80, 0x7a), Word(0x73, 0x59, 0xf6, 0x7f));
    var s := Block(Word(0xa4, 0x9c, 0x7f, 0xf2), Word(0x68, 0x9f, 0x35, 0x2b),
                   Word(0x6b, 0x5b, 0xea, 0x43), Word(0x02, 0x6a, 0x50, 0x49));
    TurnIsKey(rk, 2, k);
    ReachesNext(rk, 2, s, k);
    var t := Block(Word(0x49, 0xdb, 0x87, 0x3b), Word(0x45, 0x39, 0x53, 0x89),
                   Word(0x7f, 0x02, 0xd2, 0xf1), Word(0x77, 0xde, 0x96, 0x1a));
    assert ShiftRows(SubBytes(s)) == t;
    assert XorBlock(MixColumns(t), k) == Block(Word(0xaa, 0x8f, 0x5f, 0x03), Word(0x61, 0xdd, 0xe3, 0xef),
                                               Word(0x82, 0xd2, 0x4a, 0xd2), Word(0x68, 0x32, 0x46, 0x9a));
  }

  lemma {:induction false} Round3(rk: seq<Word>)
    requires |KEY| == 16 && Filled(rk, KEY, 4, 44)
    ensures Reaches(rk, 3, Block(Word(0x48, 0x6c, 0x4e, 0xee), Word(0x67, 0x1d, 0x9d, 0x0d),
                                 Word(0x4d, 0xe3, 0xb1, 0x38), Word(0xd6, 0x5f, 0x58, 0xe7)))
  {
    hide Filled, Turn, RoundKey, Reaches;
    Round2(rk);
    Turn3();
    var k := Block(Word(0x3d, 0x80, 0x47, 0x7d), Word(0x47, 0x16, 0xfe, 0x3e),
                   Word(0x1e, 0x23, 0x7e, 0x44), Word(0x6d, 0x7a, 0x88, 0x3b));
    var s := Block(Word(0xaa, 0x8f, 0x5f, 0x03), Word(0x61, 0xdd, 0xe3, 0xef),
                   Word(0x82, 0xd2, 0x4a, 0xd2), Word(0x68, 0x32, 0x46, 0x9a));
    TurnIsKey(rk, 3, k);
    ReachesNext(rk, 3, s, k);
    var t := Block(Word(0xac, 0xc1, 0xd6, 0xb8), Word(0xef, 0xb5, 0x5a, 0x7b),
                   Word(0x13, 0x23, 0xcf, 0xdf), Word(0x45, 0x73, 0x11, 0xb5));
    assert ShiftRows(SubBytes(s)) == t;
    assert XorBlock(MixColumns(t), k) == Block(Word(0x48, 0x6c, 0x4e, 0xee), Word(0x67, 0x1d, 0x9d, 0x0d),
                                               Word(0x4d, 0xe3, 0xb1, 0x38), Word(0xd6, 0x5f, 0x58, 0xe7));
  }

  lemma {:induction false} Round4(rk: seq<Word>)
    requires |KEY| == 16 && Filled(rk, KEY, 4, 44)
    ensures Reaches(rk, 4, Block(Word(0xe0, 0x92, 0x7f, 0xe8), Word(0xc8, 0x63, 0x63, 0xc0),
                                 Word(0xd9, 0xb1, 0x35, 0x50), Word(0x85, 0xb8, 0xbe, 0x01)))
  {
    hide Filled, Turn, RoundKey, Reaches;
    Round3(rk);
    Turn4();
    var k := Block(Word(0xef, 0x44, 0xa5, 0x41), Word(0xa8, 0x52, 0x5b, 0x7f),
                   Word(0xb6, 0x71, 0x25, 0x3b), Word(0xdb, 0x0b, 0xad, 0x00));
    var s := Block(Word(0x48, 0x6c, 0x4e, 0xee), Word(0x67, 0x1d, 0x9d, 0x0d),
                   Word(0x4d, 0xe3, 0xb1, 0x38), Word(0xd6, 0x5f, 0x58, 0xe7));
    TurnIsKey(rk, 4, k);
    ReachesNext(rk, 4, s, k);
    var t := Block(Word(0x52, 0xa4, 0xc8, 0x94), Word(0x85, 0x11, 0x6a, 0x28),
                   Word(0xe3, 0xcf, 0x2f, 0xd7), Word(0xf6, 0x50, 0x5e, 0x07));
    assert ShiftRows(SubBytes(s)) == t;
    assert XorBlock(MixColumns(t), k) == Block(Word(0xe0, 0x92, 0x7f, 0xe8), Word(0xc8, 0x63, 0x63, 0xc0),
                                               Word(0xd9, 0xb1, 0x35, 0x50), Word(0x85, 0xb8, 0xbe, 0x01));
  }

  lemma {:induction false} Round5(rk: seq<Word>)
    requires |KEY| == 16 && Filled(rk, KEY, 4, 44)
    ensures Reaches(rk, 5, Block(Word(0xf1, 0x00, 0x6f, 0x55), Word(0xc1, 0x92, 0x4c, 0xef),
                                 Word(0x7c, 0xc8, 0x8b, 0x32), Word(0x5d, 0xb5, 0xd5, 0x0c)))
  {
    hide Filled, Turn, RoundKey, Reaches;
    Round4(rk);
    Turn5();
    var k := Block(Word(0xd4, 0xd1, 0xc6, 0xf8), Word(0x7c, 0x83, 0x9d, 0x87),
                   Word(0xca, 0xf2, 0xb8, 0xbc), Word(0x11, 0xf9, 0x15, 0xbc));
    var s := Block(Word(0xe0, 0x92, 0x7f, 0xe8), Word(0xc8, 0x63, 0x63, 0xc0),
                   Word(0xd9, 0xb1, 0x35, 0x50), Word(0x85, 0xb8, 0xbe, 0x01));
    TurnIsKey(rk, 5, k);
    ReachesNext(rk, 5, s, k);
    var t := Block(Word(0xe1, 0xfb, 0x96, 0x7c), Word(0xe8, 0xc8, 0xae, 0x9b),
                   Word(0x35, 0x6c, 0xd2, 0xba), Word(0x97, 0x4f, 0xfb, 0x53));
    assert ShiftRows(SubBytes(s)) == t;
    assert XorBlock(MixColumns(t), k) == Block(Word(0xf1, 0x00, 0x6f, 0x55), Word(0xc1, 0x92, 0x4c, 0xef),
                                               Word(0x7c, 0xc8, 0x8b, 0x32), Word(0x5d, 0xb5, 0xd5, 0x0c));
  }

  lemma {:induction false} Round6(rk: seq<Word>)
    requires |KEY| == 16 && Filled(rk, KEY, 4, 44)
    ensures Reaches(rk, 6, Block(Word(0x26, 0x0e, 0x2e, 0x17), Word(0x3d, 0x41, 0xb7, 0x7d),
                                 Word(0xe8, 0x64, 0x72, 0xa9), Word(0xfd, 0xd2, 0x8b, 0x25)))
  {
    hide Filled, Turn, RoundKey, Reaches;
    Round5(rk);
    Turn6();
    var k := Block(Word(0x6d, 0x88, 0xa3, 0x7a), Word(0x11, 0x0b, 0x3e, 0xfd),
                   Word(0xdb, 0xf9, 0x86, 0x41), Word(0xca, 0x00, 0x93, 0xfd));
    var s := Block(Word(0xf1, 0x00, 0x6f, 0x55), Word(0xc1, 0x92, 0x4c, 0xef),
                   Word(0x7c, 0xc8, 0x8b, 0x32), Word(0x5d, 0xb5, 0xd5, 0x0c));
    TurnIsKey(rk, 6, k);
    ReachesNext(rk, 6, s, k);
    var t := Block(Word(0xa1, 0x4f, 0x3d, 0xfe), Word(0x78, 0xe8, 0x03, 0xfc),
                   Word(0x10, 0xd5, 0xa8, 0xdf), Word(0x4c, 0x63, 0x29, 0x23));
    assert ShiftRows(SubBytes(s)) == t;
    assert XorBlock(MixColumns(t), k) == Block(Word(0x26, 0x0e, 0x2e, 0x17), Word(0x3d, 0x41, 0xb7, 0x7d),
                                               Word(0xe8, 0x64, 0x72, 0xa9), Word(0xfd, 0xd2, 0x8b, 0x25));
  }

  lemma {:induction false} Round7(rk: seq<Word>)
    requires |KEY| == 16 && Filled(rk, KEY, 4, 44)
    ensures Reaches(rk, 7, Block(Word(0x5a, 0x41, 0x42, 0xb1), Word(0x19, 0x49, 0xdc, 0x1f),
                                 Word(0xa3, 0xe0, 0x19, 0x65), Word(0x7a, 0x8c, 0x04, 0x0c)))
  {
    hide Filled, Turn, RoundKey, Reaches;
    Round6(rk);
    Turn7();
    var k := Block(Word(0x4e, 0x54, 0xf7, 0x0e), Word(0x5f, 0x5f, 0xc9, 0xf3),
                   Word(0x84, 0xa6, 0x4f, 0xb2), Word(0x4e, 0xa6, 0xdc, 0x4f));
    var s := Block(Word(0x26, 0x0e, 0x2e, 0x17), Word(0x3d, 0x41, 0xb7, 0x7d),
                   Word(0xe8, 0x64, 0x72, 0xa9), Word(0xfd, 0xd2, 0x8b, 0x25));
    TurnIsKey(rk, 7, k);
    ReachesNext(rk, 7, s, k);
    var t := Block(Word(0xf7, 0x83, 0x40, 0x3f), Word(0x27, 0x43, 0x3d, 0xf0),
                   Word(0x9b, 0xb5, 0x31, 0xff), Word(0x54, 0xab, 0xa9, 0xd3));
    assert ShiftRows(SubBytes(s)) == t;
    assert XorBlock(MixColumns(t), k) == Block(Word(0x5a, 0x41, 0x42, 0xb1), Word(0x19, 0x49, 0xdc, 0x1f),
                                               Word(0xa3, 0xe0, 0x19, 0x65), Word(0x7a, 0x8c, 0x04, 0x0c));
  }

  lemma {:induction false} Round8(rk: seq<Word>)
    requires |KEY| == 16 && Filled(rk, KEY, 4, 44)
    ensures Reaches(rk, 8, Block(Word(0xea, 0x83, 0x5c, 0xf0), Word(0x04, 0x45, 0x33, 0x2d),
                                 Word(0x65, 0x5d, 0x98, 0xad), Word(0x85, 0x96, 0xb0, 0xc5)))
  {
    hide Filled, Turn, RoundKey, Reaches;
    Round7(rk);
    Turn8();
    var k := Block(Word(0xea, 0xd2, 0x73, 0x21), Word(0xb5, 0x8d, 0xba, 0xd2),
                   Word(0x31, 0x2b, 0xf5, 0x60), Word(0x7f, 0x8d, 0x29, 0x2f));
    var s := Block(Word(0x5a, 0x41, 0x42, 0xb1), Word(0x19, 0x49, 0xdc, 0x1f),
                   Word(0xa3, 0xe0, 0x19, 0x65), Word(0x7a, 0x8c, 0x04, 0x0c));
    TurnIsKey(rk, 8, k);
    ReachesNext(rk, 8, s, k);
    var t := Block(Word(0xbe, 0x3b, 0xd4, 0xfe), Word(0xd4, 0xe1, 0xf2, 0xc8),
                   Word(0x0a, 0x64, 0x2c, 0xc0), Word(0xda, 0x83, 0x86, 0x4d));
    assert ShiftRows(SubBytes(s)) == t;
    assert XorBlock(MixColumns(t), k) == Block(Word(0xea, 0x83, 0x5c, 0xf0), Word(0x04, 0x45, 0x33, 0x2d),
                                               Word(0x65, 0x5d, 0x98, 0xad), Word(0x85, 0x96, 0xb0, 0xc5));
  }

  lemma {:induction false} Round9(rk: seq<Word>)
    requires |KEY| == 16 && Filled(rk, KEY, 4, 44)
    ensures Reaches(rk, 9, Block(Word(0xeb, 0x40, 0xf2, 0x1e), Word(0x59, 0x2e, 0x38, 0x84),
                                 Word(0x8b, 0xa1, 0x13, 0xe7), Word(0x1b, 0xc3, 0x42, 0xd2)))
  {
    hide Filled, Turn, RoundKey, Reaches;
    Round8(rk);
    Turn9();
    var k := Block(Word(0xac, 0x77, 0x66, 0xf3), Word(0x19, 0xfa, 0xdc, 0x21),
                   Word(0x28, 0xd1, 0x29, 0x41), Word(0x57, 0x5c, 0x00, 0x6e));
    var s := Block(Word(0xea, 0x83, 0x5c, 0xf0), Word(0x04, 0x45, 0x33, 0x2d),
                   Word(0x65, 0x5d, 0x98, 0xad), Word(0x85, 0x96, 0xb0, 0xc5));
    TurnIsKey(rk, 9, k);
    ReachesNext(rk, 9, s, k);
    var t := Block(Word(0x87, 0x6e, 0x46, 0xa6), Word(0xf2, 0x4c, 0xe7, 0x8c),
                   Word(0x4d, 0x90, 0x4a, 0xd8), Word(0x97, 0xec, 0xc3, 0x95));
    assert ShiftRows(SubBytes(s)) == t;
    assert XorBlock(MixColumns(t), k) == Block(Word(0xeb, 0x40, 0xf2, 0x1e), Word(0x59, 0x2e, 0x38, 0x84),
                                               Word(0x8b, 0xa1, 0x13, 0xe7), Word(0x1b, 0xc3, 0x42, 0xd2));
  }

  /** Appendix B: whatever buffer holds the schedule of the key, the cipher turns the input into the output of the
      standard. */
  lemma {:induction false} AppendixB(rk: seq<Word>)
    requires |KEY| == |PLAIN| == 16 && Filled(rk, KEY, 4, 44)
    ensures Cipher(LoadBlock(PLAIN), rk, 10) == Block(Word(0x39, 0x25, 0x84, 0x1d), Word(0x02, 0xdc, 0x09, 0xfb),
                                                      Word(0xdc, 0x11, 0x85, 0x97), Word(0x19, 0x6a, 0x0b, 0x32))
  {
    hide Filled, Turn, RoundKey, State, LoadBlock;
    Round9(rk);
    Turn10();
    var k := Block(Word(0xd0, 0x14, 0xf9, 0xa8), Word(0xc9, 0xee, 0x25, 0x89),
                   Word(0xe1, 0x3f, 0x0c, 0xc8), Word(0xb6, 0x63, 0x0c, 0xa6));
    var s := Block(Word(0xeb, 0x40, 0xf2, 0x1e), Word(0x59, 0x2e, 0x38, 0x84),
                   Word(0x8b, 0xa1, 0x13, 0xe7), Word(0x1b, 0xc3, 0x42, 0xd2));
    TurnIsKey(rk, 10, k);
    assert ShiftRows(SubBytes(s)) == Block(Word(0xe9, 0x31, 0x7d, 0xb5), Word(0xcb, 0x32, 0x2c, 0x72),
                                           Word(0x3d, 0x2e, 0x89, 0x5f), Word(0xaf, 0x09, 0x07, 0x94));
  }

  /** Key set-up and encryption on the bytes of the example leave its sixteen bytes. */
  method EncryptAppendixB(rk: array<Word>, ct: array<bv8>)
    requires 44 <= rk.Length && 16 <= ct.Length
    requires var buffers: set<object> := {ct}; rk !in buffers
    modifies rk, ct
    ensures ct[..16] == [0x39, 0x25, 0x84, 0x1d, 0x02, 0xdc, 0x09, 0xfb,
                         0xdc, 0x11, 0x85, 0x97, 0x19, 0x6a, 0x0b, 0x32]
  {
    hide Filled, KeyExpansion, Cipher;
    var nr := KeySetupEnc(rk, KEY, 128);
    Encrypt(rk[..], nr, PLAIN, ct);
    AppendixB(rk[..]);
  }
}
