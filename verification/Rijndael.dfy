/** The look-up tables of lib/rijndael-alg-fst.c, the cipher and its equivalent inverse as FIPS 197 gives them, and
    why the one undoes the other. */
module Rijndael {

  import opened RijndaelBox
  import opened RijndaelField

  // ---------- The look-up tables, by their definitions in the source ----------

  function Te0(x: bv8): Word { var s := S(x); Word(Twice(s), s, s, Times3(s)) }
  function Te1(x: bv8): Word { var s := S(x); Word(Times3(s), Twice(s), s, s) }
  function Te2(x: bv8): Word { var s := S(x); Word(s, Times3(s), Twice(s), s) }
  function Te3(x: bv8): Word { var s := S(x); Word(s, s, Times3(s), Twice(s)) }
  function Te4(x: bv8): Word { var s := S(x); Word(s, s, s, s) }

  function Td0(x: bv8): Word { var s := Si(x); Word(TimesE(s), Times9(s), TimesD(s), TimesB(s)) }
  function Td1(x: bv8): Word { var s := Si(x); Word(TimesB(s), TimesE(s), Times9(s), TimesD(s)) }
  function Td2(x: bv8): Word { var s := Si(x); Word(TimesD(s), TimesB(s), TimesE(s), Times9(s)) }
  function Td3(x: bv8): Word { var s := Si(x); Word(Times9(s), TimesD(s), TimesB(s), TimesE(s)) }
  function Td4(x: bv8): Word { var s := Si(x); Word(s, s, s, s) }

  /** The exclusive or of four look-ups and a key, as the source writes it. */
  function Xor5(a: Word, b: Word, c: Word, d: Word, k: Word): Word
  {
    Xor(Xor(Xor(Xor(a, b), c), d), k)
  }

  /** The bytes masked out of four look-ups, put together. */
  function Masked(a: Word, b: Word, c: Word, d: Word): Word
  {
    Word(a.b3, b.b2, c.b1, d.b0)
  }

  // ---------- The steps of FIPS 197 ----------

  datatype Block = Block(s0: Word, s1: Word, s2: Word, s3: Word)

  function XorBlock(x: Block, y: Block): Block
  {
    Block(Xor(x.s0, y.s0), Xor(x.s1, y.s1), Xor(x.s2, y.s2), Xor(x.s3, y.s3))
  }

  function SubWord(w: Word): Word
  {
    Word(S(w.b3), S(w.b2), S(w.b1), S(w.b0))
  }

  function UnsubWord(w: Word): Word
  {
    Word(Si(w.b3), Si(w.b2), Si(w.b1), Si(w.b0))
  }

  function SubBytes(s: Block): Block
  {
    Block(SubWord(s.s0), SubWord(s.s1), SubWord(s.s2), SubWord(s.s3))
  }

  function UnsubBytes(s: Block): Block
  {
    Block(UnsubWord(s.s0), UnsubWord(s.s1), UnsubWord(s.s2), UnsubWord(s.s3))
  }

  /** Row i, the i-th bytes of the columns, moves i columns to the left. */
  function ShiftRows(s: Block): Block
  {
    Block(Word(s.s0.b3, s.s1.b2, s.s2.b1, s.s3.b0), Word(s.s1.b3, s.s2.b2, s.s3.b1, s.s0.b0),
          Word(s.s2.b3, s.s3.b2, s.s0.b1, s.s1.b0), Word(s.s3.b3, s.s0.b2, s.s1.b1, s.s2.b0))
  }

  function UnshiftRows(s: Block): Block
  {
    Block(Word(s.s0.b3, s.s3.b2, s.s2.b1, s.s1.b0), Word(s.s1.b3, s.s0.b2, s.s3.b1, s.s2.b0),
          Word(s.s2.b3, s.s1.b2, s.s0.b1, s.s3.b0), Word(s.s3.b3, s.s2.b2, s.s1.b1, s.s0.b0))
  }

  function MixColumns(s: Block): Block
  {
    Block(Mix(s.s0), Mix(s.s1), Mix(s.s2), Mix(s.s3))
  }

  function UnmixColumns(s: Block): Block
  {
    Block(Unmix(s.s0), Unmix(s.s1), Unmix(s.s2), Unmix(s.s3))
  }

  function RoundKey(rk: seq<Word>, i: nat): Block
    requires 4 * i + 4 <= |rk|
  {
    Block(rk[4 * i], rk[4 * i + 1], rk[4 * i + 2], rk[4 * i + 3])
  }

  /** The state after r full rounds. */
  function State(pt: Block, rk: seq<Word>, r: nat): Block
    requires 4 * r + 4 <= |rk|
  {
    if r == 0 then XorBlock(pt, RoundKey(rk, 0))
    else XorBlock(MixColumns(ShiftRows(SubBytes(State(pt, rk, r - 1)))), RoundKey(rk, r))
  }

  /** The cipher of section 5.1 of FIPS 197: nr - 1 full rounds and one without the mixing. */
  function Cipher(pt: Block, rk: seq<Word>, nr: nat): Block
    requires 1 <= nr && 4 * nr + 4 <= |rk|
  {
    XorBlock(ShiftRows(SubBytes(State(pt, rk, nr - 1))), RoundKey(rk, nr))
  }

  function InverseState(ct: Block, rk: seq<Word>, r: nat): Block
    requires 4 * r + 4 <= |rk|
  {
    if r == 0 then XorBlock(ct, RoundKey(rk, 0))
    else XorBlock(UnmixColumns(UnshiftRows(UnsubBytes(InverseState(ct, rk, r - 1)))), RoundKey(rk, r))
  }

  /** The equivalent inverse cipher of section 5.3.5 of FIPS 197. */
  function InverseCipher(ct: Block, rk: seq<Word>, nr: nat): Block
    requires 1 <= nr && 4 * nr + 4 <= |rk|
  {
    XorBlock(UnshiftRows(UnsubBytes(InverseState(ct, rk, nr - 1))), RoundKey(rk, nr))
  }

  // ---------- The rows by position ----------

  function Column(s: Block, c: nat): Word
    requires c < 4
  {
    if c == 0 then s.s0 else if c == 1 then s.s1 else if c == 2 then s.s2 else s.s3
  }

  /** The byte in row r of column c. */
  function ByteAt(s: Block, r: nat, c: nat): bv8
    requires r < 4 && c < 4
  {
    var w := Column(s, c);
    if r == 0 then w.b3 else if r == 1 then w.b2 else if r == 2 then w.b1 else w.b0
  }

  /** Section 5.1.2 of FIPS 197: row r is rotated by r places to the left, and section 5.3.1 to the right. */
  lemma {:induction false} ShiftRowsMoves(s: Block, r: nat, c: nat)
    requires r < 4 && c < 4
    ensures ByteAt(ShiftRows(s), r, c) == ByteAt(s, r, (c + r) % 4)
    ensures ByteAt(UnshiftRows(s), r, (c + r) % 4) == ByteAt(s, r, c)
  {
  }

  // ---------- Each step has its inverse ----------

  lemma {:induction false} UnsubSub(w: Word)
    ensures UnsubWord(SubWord(w)) == w
  {
    hide S, Si;
    SubstitutionInverts(w.b3);
    SubstitutionInverts(w.b2);
    SubstitutionInverts(w.b1);
    SubstitutionInverts(w.b0);
  }

  lemma {:induction false} UnsubBytesSub(s: Block)
    ensures UnsubBytes(SubBytes(s)) == s
  {
    hide SubWord, UnsubWord;
    UnsubSub(s.s0);
    UnsubSub(s.s1);
    UnsubSub(s.s2);
    UnsubSub(s.s3);
  }

  lemma {:induction false} UnshiftCommutes(s: Block)
    ensures UnshiftRows(UnsubBytes(ShiftRows(s))) == UnsubBytes(s)
  {
    hide Si;
  }

  /** Undoing the substitution and the shift of a round. */
  lemma {:induction false} UnshiftBack(s: Block)
    ensures UnshiftRows(UnsubBytes(ShiftRows(SubBytes(s)))) == s
  {
    hide SubBytes, UnsubBytes, ShiftRows, UnshiftRows;
    UnshiftCommutes(SubBytes(s));
    UnsubBytesSub(s);
  }

  lemma {:induction false} UnmixBack(s: Block, k: Block)
    ensures UnmixColumns(XorBlock(MixColumns(s), k)) == XorBlock(s, UnmixColumns(k))
  {
    hide Mix, Unmix, Xor;
    UnmixXor(Mix(s.s0), k.s0);
    UnmixXor(Mix(s.s1), k.s1);
    UnmixXor(Mix(s.s2), k.s2);
    UnmixXor(Mix(s.s3), k.s3);
    UnmixMix(s.s0);
    UnmixMix(s.s1);
    UnmixMix(s.s2);
    UnmixMix(s.s3);
  }

  lemma {:induction false} XorBack(x: Block, y: Block)
    ensures XorBlock(XorBlock(x, y), y) == x
  {
    hide Xor;
    XorLaws(x.s0, y.s0, y.s0);
    XorLaws(x.s1, y.s1, y.s1);
    XorLaws(x.s2, y.s2, y.s2);
    XorLaws(x.s3, y.s3, y.s3);
  }

  /** The decryption schedule for an encryption schedule: its round keys from the last to the first, all but the
      outer two mixed back. */
  predicate Reversed(dk: seq<Word>, rk: seq<Word>, nr: nat)
    requires 4 * nr + 4 <= |rk| && 4 * nr + 4 <= |dk|
  {
    && RoundKey(dk, 0) == RoundKey(rk, nr) && RoundKey(dk, nr) == RoundKey(rk, 0)
    && forall r :: 0 < r < nr ==> RoundKey(dk, r) == UnmixColumns(RoundKey(rk, nr - r))
  }

  /** After r rounds decryption stands where encryption stood before its last r + 1 rounds, behind the
      substitution and the shift. */
  lemma {:induction false} InverseRetraces(pt: Block, rk: seq<Word>, dk: seq<Word>, nr: nat, r: nat)
    requires r < nr && 4 * nr + 4 <= |rk| && 4 * nr + 4 <= |dk| && Reversed(dk, rk, nr)
    ensures InverseState(Cipher(pt, rk, nr), dk, r) == ShiftRows(SubBytes(State(pt, rk, nr - 1 - r)))
  {
    hide SubBytes, UnsubBytes, ShiftRows, UnshiftRows, MixColumns, UnmixColumns, XorBlock, RoundKey;
    if r == 0 {
      XorBack(ShiftRows(SubBytes(State(pt, rk, nr - 1))), RoundKey(rk, nr));
    } else {
      InverseRetraces(pt, rk, dk, nr, r - 1);
      var before := ShiftRows(SubBytes(State(pt, rk, nr - 1 - r)));
      var k := RoundKey(rk, nr - r);
      UnshiftBack(State(pt, rk, nr - r));
      UnmixBack(before, k);
      XorBack(before, UnmixColumns(k));
    }
  }

  /** Decryption with the reversed schedule gives the plain text back, whatever the schedule. */
  lemma {:induction false} DecryptEncrypt(pt: Block, rk: seq<Word>, dk: seq<Word>, nr: nat)
    requires 1 <= nr && 4 * nr + 4 <= |rk| && 4 * nr + 4 <= |dk| && Reversed(dk, rk, nr)
    ensures InverseCipher(Cipher(pt, rk, nr), dk, nr) == pt
  {
    hide SubBytes, UnsubBytes, ShiftRows, UnshiftRows, XorBlock, RoundKey, Cipher;
    InverseRetraces(pt, rk, dk, nr, nr - 1);
    UnshiftBack(State(pt, rk, 0));
    XorBack(pt, RoundKey(rk, 0));
  }
}
