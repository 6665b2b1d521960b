/** lib/rijndael-alg-fst.c, rijndaelEncrypt and rijndaelDecrypt as they run: table look-ups, two rounds to a turn
    of the loop, blocks read from bytes and written to bytes. */
module RijndaelRounds {

  import opened RijndaelBox
  import opened RijndaelField
  import opened Rijndael

  function EncryptRound(s: Block, k: Block): Block
  {
    Block(Xor5(Te0(s.s0.b3), Te1(s.s1.b2), Te2(s.s2.b1), Te3(s.s3.b0), k.s0),
          Xor5(Te0(s.s1.b3), Te1(s.s2.b2), Te2(s.s3.b1), Te3(s.s0.b0), k.s1),
          Xor5(Te0(s.s2.b3), Te1(s.s3.b2), Te2(s.s0.b1), Te3(s.s1.b0), k.s2),
          Xor5(Te0(s.s3.b3), Te1(s.s0.b2), Te2(s.s1.b1), Te3(s.s2.b0), k.s3))
  }

  function EncryptLast(t: Block, k: Block): Block
  {
    Block(Xor(Masked(Te4(t.s0.b3), Te4(t.s1.b2), Te4(t.s2.b1), Te4(t.s3.b0)), k.s0),
          Xor(Masked(Te4(t.s1.b3), Te4(t.s2.b2), Te4(t.s3.b1), Te4(t.s0.b0)), k.s1),
          Xor(Masked(Te4(t.s2.b3), Te4(t.s3.b2), Te4(t.s0.b1), Te4(t.s1.b0)), k.s2),
          Xor(Masked(Te4(t.s3.b3), Te4(t.s0.b2), Te4(t.s1.b1), Te4(t.s2.b0)), k.s3))
  }

  function DecryptRound(s: Block, k: Block): Block
  {
    Block(Xor5(Td0(s.s0.b3), Td1(s.s3.b2), Td2(s.s2.b1), Td3(s.s1.b0), k.s0),
          Xor5(Td0(s.s1.b3), Td1(s.s0.b2), Td2(s.s3.b1), Td3(s.s2.b0), k.s1),
          Xor5(Td0(s.s2.b3), Td1(s.s1.b2), Td2(s.s0.b1), Td3(s.s3.b0), k.s2),
          Xor5(Td0(s.s3.b3), Td1(s.s2.b2), Td2(s.s1.b1), Td3(s.s0.b0), k.s3))
  }

  function DecryptLast(t: Block, k: Block): Block
  {
    Block(Xor(Masked(Td4(t.s0.b3), Td4(t.s3.b2), Td4(t.s2.b1), Td4(t.s1.b0)), k.s0),
          Xor(Masked(Td4(t.s1.b3), Td4(t.s0.b2), Td4(t.s3.b1), Td4(t.s2.b0)), k.s1),
          Xor(Masked(Td4(t.s2.b3), Td4(t.s1.b2), Td4(t.s0.b1), Td4(t.s3.b0)), k.s2),
          Xor(Masked(Td4(t.s3.b3), Td4(t.s2.b2), Td4(t.s1.b1), Td4(t.s0.b0)), k.s3))
  }

  /** Four look-ups mix a column of substituted bytes. */
  lemma {:induction false} LookupMixes(x3: bv8, x2: bv8, x1: bv8, x0: bv8, k: Word)
    ensures Xor5(Te0(x3), Te1(x2), Te2(x1), Te3(x0), k) == Xor(Mix(Word(S(x3), S(x2), S(x1), S(x0))), k)
    ensures Xor5(Td0(x3), Td1(x2), Td2(x1), Td3(x0), k) == Xor(Unmix(Word(Si(x3), Si(x2), Si(x1), Si(x0))), k)
  {
    hide S, Si, Add, Twice, Times3, Times9, TimesB, TimesD, TimesE;
  }

  /** A round by look-up is a round of the cipher. */
  lemma {:induction false} EncryptRoundIs(s: Block, k: Block)
    ensures EncryptRound(s, k) == XorBlock(MixColumns(ShiftRows(SubBytes(s))), k)
  {
    hide S, Xor, Xor5, Mix, Te0, Te1, Te2, Te3;
    LookupMixes(s.s0.b3, s.s1.b2, s.s2.b1, s.s3.b0, k.s0);
    LookupMixes(s.s1.b3, s.s2.b2, s.s3.b1, s.s0.b0, k.s1);
    LookupMixes(s.s2.b3, s.s3.b2, s.s0.b1, s.s1.b0, k.s2);
    LookupMixes(s.s3.b3, s.s0.b2, s.s1.b1, s.s2.b0, k.s3);
  }

  lemma {:induction false} EncryptLastIs(t: Block, k: Block)
    ensures EncryptLast(t, k) == XorBlock(ShiftRows(SubBytes(t)), k)
  {
    hide S, Xor;
  }

  lemma {:induction false} DecryptRoundIs(s: Block, k: Block)
    ensures DecryptRound(s, k) == XorBlock(UnmixColumns(UnshiftRows(UnsubBytes(s))), k)
  {
    hide Si, Xor, Xor5, Unmix, Td0, Td1, Td2, Td3;
    LookupMixes(s.s0.b3, s.s3.b2, s.s2.b1, s.s1.b0, k.s0);
    LookupMixes(s.s1.b3, s.s0.b2, s.s3.b1, s.s2.b0, k.s1);
    LookupMixes(s.s2.b3, s.s1.b2, s.s0.b1, s.s3.b0, k.s2);
    LookupMixes(s.s3.b3, s.s2.b2, s.s1.b1, s.s0.b0, k.s3);
  }

  lemma {:induction false} DecryptLastIs(t: Block, k: Block)
    ensures DecryptLast(t, k) == XorBlock(UnshiftRows(UnsubBytes(t)), k)
  {
    hide Si, Xor;
  }

  // ---------- Bytes ----------

  /** GETU32. */
  function GetWord(p: seq<bv8>, i: nat): Word
    requires i + 4 <= |p|
  {
    Word(p[i], p[i + 1], p[i + 2], p[i + 3])
  }

  function LoadBlock(p: seq<bv8>): Block
    requires 16 <= |p|
  {
    Block(GetWord(p, 0), GetWord(p, 4), GetWord(p, 8), GetWord(p, 12))
  }

  /** PUTU32. */
  method PutWord(out: array<bv8>, i: nat, w: Word)
    requires i + 4 <= out.Length
    modifies out
    ensures GetWord(out[..], i) == w
    ensures forall k :: 0 <= k < out.Length && (k < i || i + 4 <= k) ==> out[k] == old(out[k])
  {
    out[i], out[i + 1], out[i + 2], out[i + 3] := w.b3, w.b2, w.b1, w.b0;
  }

  method PutBlock(out: array<bv8>, b: Block)
    requires 16 <= out.Length
    modifies out
    ensures LoadBlock(out[..]) == b
    ensures forall k :: 16 <= k < out.Length ==> out[k] == old(out[k])
  {
    PutWord(out, 0, b.s0);
    PutWord(out, 4, b.s1);
    PutWord(out, 8, b.s2);
    PutWord(out, 12, b.s3);
  }

  /** rijndaelEncrypt, for any even number of rounds: the loop leaves after an odd number of rounds, nr - 1. */
  method Encrypt(rk: seq<Word>, nr: nat, pt: seq<bv8>, ct: array<bv8>)
    requires 2 <= nr && nr % 2 == 0 && 4 * nr + 4 <= |rk| && 16 <= |pt| && 16 <= ct.Length
    modifies ct
    ensures LoadBlock(ct[..]) == Cipher(LoadBlock(pt), rk, nr)
    ensures forall k :: 16 <= k < ct.Length ==> ct[k] == old(ct[k])
  {
    hide EncryptRound, EncryptLast, XorBlock, MixColumns, ShiftRows, SubBytes, LoadBlock;
    ghost var p := LoadBlock(pt);
    var s := XorBlock(LoadBlock(pt), RoundKey(rk, 0));
    var r, at := nr / 2, 0;
    var t;
    while true
      invariant 1 <= r <= nr / 2 && at == nr - 2 * r
      invariant s == State(p, rk, at)
      modifies {}
      decreases r
    {
      EncryptRoundIs(s, RoundKey(rk, at + 1));
      t := EncryptRound(s, RoundKey(rk, at + 1));
      at := at + 2;
      r := r - 1;
      if r == 0 { break; }
      EncryptRoundIs(t, RoundKey(rk, at));
      s := EncryptRound(t, RoundKey(rk, at));
    }
    EncryptLastIs(t, RoundKey(rk, at));
    s := EncryptLast(t, RoundKey(rk, at));
    PutBlock(ct, s);
  }

  /** rijndaelDecrypt. */
  method Decrypt(rk: seq<Word>, nr: nat, ct: seq<bv8>, pt: array<bv8>)
    requires 2 <= nr && nr % 2 == 0 && 4 * nr + 4 <= |rk| && 16 <= |ct| && 16 <= pt.Length
    modifies pt
    ensures LoadBlock(pt[..]) == InverseCipher(LoadBlock(ct), rk, nr)
    ensures forall k :: 16 <= k < pt.Length ==> pt[k] == old(pt[k])
  {
    hide DecryptRound, DecryptLast, XorBlock, UnmixColumns, UnshiftRows, UnsubBytes, LoadBlock;
    ghost var c := LoadBlock(ct);
    var s := XorBlock(LoadBlock(ct), RoundKey(rk, 0));
    var r, at := nr / 2, 0;
    var t;
    while true
      invariant 1 <= r <= nr / 2 && at == nr - 2 * r
      invariant s == InverseState(c, rk, at)
      modifies {}
      decreases r
    {
      DecryptRoundIs(s, RoundKey(rk, at + 1));
      t := DecryptRound(s, RoundKey(rk, at + 1));
      at := at + 2;
      r := r - 1;
      if r == 0 { break; }
      DecryptRoundIs(t, RoundKey(rk, at));
      s := DecryptRound(t, RoundKey(rk, at));
    }
    DecryptLastIs(t, RoundKey(rk, at));
    s := DecryptLast(t, RoundKey(rk, at));
    PutBlock(pt, s);
  }
}
