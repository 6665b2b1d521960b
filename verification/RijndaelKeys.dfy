/** lib/rijndael-alg-fst.c, rijndaelKeySetupEnc and rijndaelKeySetupDec: the key schedules. */
module RijndaelKeys {

  import opened RijndaelBox
  import opened RijndaelField
  import opened Rijndael
  import opened RijndaelRounds

  // ---------- The key expansion of section 5.2 of FIPS 197 ----------

  /** The i-th power of x in the field. */
  function Power(i: nat): bv8
  {
    if i == 0 then 1 else Twice(Power(i - 1))
  }

  function RotWord(w: Word): Word
  {
    Word(w.b2, w.b1, w.b0, w.b3)
  }

  type KeyWords = n: nat | n == 4 || n == 6 || n == 8 witness 4

  /** The rounds for a key of nk words. */
  function Rounds(nk: KeyWords): nat
  {
    nk + 6
  }

  /** The i-th word of the schedule: the key, then each word from the one before it and the one nk before. */
  function Schedule(key: seq<bv8>, nk: KeyWords, i: nat): Word
    requires 4 * nk <= |key|
    decreases i
  {
    if i < nk then GetWord(key, 4 * i)
    else
      var temp := Schedule(key, nk, i - 1);
      Xor(Schedule(key, nk, i - nk),
          if i % nk == 0 then Xor(SubWord(RotWord(temp)), Word(Power(i / nk - 1), 0, 0, 0))
          else if nk > 6 && i % nk == 4 then SubWord(temp)
          else temp)
  }

  ghost predicate Filled(rk: seq<Word>, key: seq<bv8>, nk: KeyWords, n: nat)
    requires 4 * nk <= |key|
  {
    n <= |rk| && forall k :: 0 <= k < n ==> rk[k] == Schedule(key, nk, k)
  }

  // ---------- The source's steps ----------

  /** The table rcon. */
  function Rcon(i: nat): Word
    requires i < 10
  {
    Word(if i == 0 then 0x01 else if i == 1 then 0x02 else if i == 2 then 0x04 else if i == 3 then 0x08
         else if i == 4 then 0x10 else if i == 5 then 0x20 else if i == 6 then 0x40 else if i == 7 then 0x80
         else if i == 8 then 0x1b else 0x36, 0, 0, 0)
  }

  lemma {:induction false} RconIsPower(i: nat)
    requires i < 10
    ensures Rcon(i) == Word(Power(i), 0, 0, 0)
  {
    if i > 0 {
      RconIsPower(i - 1);
      RconStep(i);
      hide Rcon, Twice;
      assert Power(i) == Twice(Rcon(i - 1).b3);
    }
  }

  lemma {:induction false} RconStep(i: nat)
    requires 0 < i < 10
    ensures Rcon(i) == Word(Twice(Rcon(i - 1).b3), 0, 0, 0)
  {
    assert Twice(0x01) == 0x02 && Twice(0x02) == 0x04 && Twice(0x04) == 0x08 && Twice(0x08) == 0x10;
    assert Twice(0x10) == 0x20 && Twice(0x20) == 0x40 && Twice(0x40) == 0x80 && Twice(0x80) == 0x1b;
    assert Twice(0x1b) == 0x36;
  }

  /** The first word of a turn: look-ups of the rotated bytes, and a constant. */
  function FirstOfTurn(w: Word, temp: Word, i: nat): Word
    requires i < 10
  {
    Xor(Xor(w, Masked(Te4(temp.b2), Te4(temp.b1), Te4(temp.b0), Te4(temp.b3))), Rcon(i))
  }

  /** The middle word of a turn of the longest key. */
  function MiddleOfTurn(w: Word, temp: Word): Word
  {
    Xor(w, Masked(Te4(temp.b3), Te4(temp.b2), Te4(temp.b1), Te4(temp.b0)))
  }

  lemma {:induction false} FirstIs(key: seq<bv8>, nk: KeyWords, i: nat)
    requires 4 * nk <= |key| && i < 10
    ensures var n := nk * (i + 1);
            Schedule(key, nk, n) == FirstOfTurn(Schedule(key, nk, n - nk), Schedule(key, nk, n - 1), i)
  {
    hide S, Xor, Rcon, Power, GetWord;
    var n := nk * (i + 1);
    var temp := Schedule(key, nk, n - 1);
    assert n % nk == 0 && n / nk - 1 == i;
    RconIsPower(i);
    XorLaws(Schedule(key, nk, n - nk), SubWord(RotWord(temp)), Rcon(i));
  }

  lemma {:induction false} OtherIs(key: seq<bv8>, nk: KeyWords, n: nat)
    requires 4 * nk <= |key| && nk <= n && n % nk != 0
    ensures Schedule(key, nk, n) ==
            if nk > 6 && n % nk == 4 then MiddleOfTurn(Schedule(key, nk, n - nk), Schedule(key, nk, n - 1))
            else Xor(Schedule(key, nk, n - nk), Schedule(key, nk, n - 1))
  {
    hide S, Xor, Power, GetWord;
  }

  // ---------- The schedule byte by byte ----------

  lemma {:induction false} PowerValues()
    ensures Power(0) == 0x01 && Power(1) == 0x02 && Power(2) == 0x04 && Power(3) == 0x08 && Power(4) == 0x10
    ensures Power(5) == 0x20 && Power(6) == 0x40 && Power(7) == 0x80 && Power(8) == 0x1b && Power(9) == 0x36
  {
    hide Power;
    RconIsPower(0);
    RconIsPower(1);
    RconIsPower(2);
    RconIsPower(3);
    RconIsPower(4);
    RconIsPower(5);
    RconIsPower(6);
    RconIsPower(7);
    RconIsPower(8);
    RconIsPower(9);
  }

  lemma {:induction false} KeyWord(key: seq<bv8>, nk: KeyWords, k: nat)
    requires 4 * nk <= |key| && k < nk
    ensures Schedule(key, nk, k) == Word(key[4 * k], key[4 * k + 1], key[4 * k + 2], key[4 * k + 3])
  {
  }

  /** The first word of a turn: the bytes of the word before it, rotated to the left and substituted, added to the word
      nk before, with the power of x added to the leading byte. */
  lemma {:induction false} FirstByBytes(key: seq<bv8>, nk: KeyWords, i: nat)
    requires 4 * nk <= |key| && i < 10
    ensures var n := nk * (i + 1);
            var o, t := Schedule(key, nk, n - nk), Schedule(key, nk, n - 1);
            Schedule(key, nk, n) == Word(Add(Add(o.b3, S(t.b2)), Power(i)), Add(o.b2, S(t.b1)), Add(o.b1, S(t.b0)),
                                         Add(o.b0, S(t.b3)))
  {
    hide S, Power, Schedule, Rcon, Add;
    var n := nk * (i + 1);
    var o, t := Schedule(key, nk, n - nk), Schedule(key, nk, n - 1);
    FirstIs(key, nk, i);
    RconIsPower(i);
    AddLaws(Add(o.b2, S(t.b1)), 0, 0);
    AddLaws(Add(o.b1, S(t.b0)), 0, 0);
    AddLaws(Add(o.b0, S(t.b3)), 0, 0);
  }

  /** Any other word: the one before it, substituted in the middle of the longest turns, and the word nk before. */
  lemma {:induction false} OtherByBytes(key: seq<bv8>, nk: KeyWords, n: nat)
    requires 4 * nk <= |key| && nk <= n && n % nk != 0
    ensures var o, t := Schedule(key, nk, n - nk), Schedule(key, nk, n - 1);
            Schedule(key, nk, n) ==
            if nk == 8 && n % 8 == 4 then
              Word(Add(o.b3, S(t.b3)), Add(o.b2, S(t.b2)), Add(o.b1, S(t.b1)), Add(o.b0, S(t.b0)))
            else Word(Add(o.b3, t.b3), Add(o.b2, t.b2), Add(o.b1, t.b1), Add(o.b0, t.b0))
  {
    hide S, Schedule, Add;
    OtherIs(key, nk, n);
  }

  /** The key expansion of section 5.2 of FIPS 197 as a relation between the bytes of the words in the buffer. */
  ghost predicate KeyExpansion(rk: seq<Word>, key: seq<bv8>, nk: KeyWords, n: nat)
    requires 4 * nk <= |key|
  {
    n <= |rk| && forall k :: 0 <= k < n ==> ExpandedAt(rk, key, nk, k)
  }

  predicate ExpandedAt(rk: seq<Word>, key: seq<bv8>, nk: KeyWords, k: nat)
    requires 4 * nk <= |key| && k < |rk|
  {
    if k < nk then rk[k] == Word(key[4 * k], key[4 * k + 1], key[4 * k + 2], key[4 * k + 3])
    else
      var o, t := rk[k - nk], rk[k - 1];
      rk[k] ==
      if k % nk == 0 then
        Word(Add(Add(o.b3, S(t.b2)), Power(k / nk - 1)), Add(o.b2, S(t.b1)), Add(o.b1, S(t.b0)), Add(o.b0, S(t.b3)))
      else if nk == 8 && k % 8 == 4 then
        Word(Add(o.b3, S(t.b3)), Add(o.b2, S(t.b2)), Add(o.b1, S(t.b1)), Add(o.b0, S(t.b0)))
      else Word(Add(o.b3, t.b3), Add(o.b2, t.b2), Add(o.b1, t.b1), Add(o.b0, t.b0))
  }

  lemma {:induction false} FilledExpands(rk: seq<Word>, key: seq<bv8>, nk: KeyWords, n: nat)
    requires 4 * nk <= |key| && Filled(rk, key, nk, n) && n <= 10 * nk + nk
    ensures KeyExpansion(rk, key, nk, n)
  {
    hide Filled, Schedule, S, Add, Power;
    FilledBound(rk, key, nk, n);
    forall k | 0 <= k < n ensures ExpandedAt(rk, key, nk, k) {
      FilledAt(rk, key, nk, n, k);
      if k < nk {
        KeyWord(key, nk, k);
      } else {
        FilledAt(rk, key, nk, n, k - nk);
        FilledAt(rk, key, nk, n, k - 1);
        if k % nk == 0 {
          TurnOf(k, nk);
          FirstByBytes(key, nk, k / nk - 1);
        } else {
          OtherByBytes(key, nk, k);
        }
      }
    }
  }

  lemma {:induction false} FilledBound(rk: seq<Word>, key: seq<bv8>, nk: KeyWords, n: nat)
    requires 4 * nk <= |key| && Filled(rk, key, nk, n)
    ensures n <= |rk|
  {
    hide Schedule;
  }

  lemma {:induction false} TurnOf(k: nat, nk: KeyWords)
    requires nk <= k < 11 * nk && k % nk == 0
    ensures 1 <= k / nk <= 10 && nk * (k / nk - 1 + 1) == k
  {
  }

  lemma {:induction false} FilledAt(rk: seq<Word>, key: seq<bv8>, nk: KeyWords, n: nat, k: nat)
    requires 4 * nk <= |key| && Filled(rk, key, nk, n) && k < n
    ensures k < |rk| && rk[k] == Schedule(key, nk, k)
  {
    hide Schedule;
  }

  /** The next word of the schedule, from the words before it. */
  method PutNext(rk: array<Word>, n: nat, w: Word, ghost key: seq<bv8>, ghost nk: KeyWords)
    requires 4 * nk <= |key| && n < rk.Length && Filled(rk[..], key, nk, n) && w == Schedule(key, nk, n)
    modifies rk
    ensures Filled(rk[..], key, nk, n + 1)
  {
    hide Schedule;
    rk[n] := w;
  }

  /** A word that is the exclusive or of the one before it and the one nk before it. */
  method PutXor(rk: array<Word>, n: nat, ghost key: seq<bv8>, nk: KeyWords)
    requires 4 * nk <= |key| && nk <= n < rk.Length && n % nk != 0 && !(nk > 6 && n % nk == 4)
    requires Filled(rk[..], key, nk, n)
    modifies rk
    ensures Filled(rk[..], key, nk, n + 1)
  {
    hide Schedule, Filled, Xor, MiddleOfTurn;
    FilledAt(rk[..], key, nk, n, n - nk);
    FilledAt(rk[..], key, nk, n, n - 1);
    OtherIs(key, nk, n);
    PutNext(rk, n, Xor(rk[n - nk], rk[n - 1]), key, nk);
  }

  method PutMiddle(rk: array<Word>, n: nat, ghost key: seq<bv8>)
    requires 32 <= |key| && 8 <= n < rk.Length && n % 8 == 4 && Filled(rk[..], key, 8, n)
    modifies rk
    ensures Filled(rk[..], key, 8, n + 1)
  {
    hide Schedule, Filled, Xor, MiddleOfTurn;
    FilledAt(rk[..], key, 8, n, n - 8);
    FilledAt(rk[..], key, 8, n, n - 1);
    OtherIs(key, 8, n);
    PutNext(rk, n, MiddleOfTurn(rk[n - 8], rk[n - 1]), key, 8);
  }

  /** The first word of turn i, at n. */
  method PutFirst(rk: array<Word>, n: nat, i: nat, ghost key: seq<bv8>, nk: KeyWords)
    requires 4 * nk <= |key| && i < 10 && n == nk * (i + 1) && nk <= n < rk.Length && Filled(rk[..], key, nk, n)
    modifies rk
    ensures Filled(rk[..], key, nk, n + 1)
  {
    hide Schedule, Filled, Xor, FirstOfTurn;
    FilledAt(rk[..], key, nk, n, n - nk);
    FilledAt(rk[..], key, nk, n, n - 1);
    FirstIs(key, nk, i);
    PutNext(rk, n, FirstOfTurn(rk[n - nk], rk[n - 1], i), key, nk);
  }

  method PutKey(rk: array<Word>, key: seq<bv8>, nk: KeyWords)
    requires 4 * nk <= |key| && nk <= rk.Length
    modifies rk
    ensures Filled(rk[..], key, nk, nk)
  {
    hide Filled;
    assert Filled(rk[..], key, nk, 0) by { FilledNothing(rk[..], key, nk); }
    for n := 0 to nk
      invariant Filled(rk[..], key, nk, n)
    {
      PutNext(rk, n, GetWord(key, 4 * n), key, nk);
    }
  }

  lemma {:induction false} FilledNothing(rk: seq<Word>, key: seq<bv8>, nk: KeyWords)
    requires 4 * nk <= |key|
    ensures Filled(rk, key, nk, 0)
  {
  }

  /** Ten turns of four words. */
  method Expand128(rk: array<Word>, key: seq<bv8>)
    requires 16 <= |key| && 44 <= rk.Length && Filled(rk[..], key, 4, 4)
    modifies rk
    ensures Filled(rk[..], key, 4, 44)
  {
    hide Filled;
    for i := 0 to 10
      invariant Filled(rk[..], key, 4, 4 * i + 4)
    {
      var b := 4 * i;
      PutFirst(rk, b + 4, i, key, 4);
      PutXor(rk, b + 5, key, 4);
      PutXor(rk, b + 6, key, 4);
      PutXor(rk, b + 7, key, 4);
    }
  }

  /** Eight turns of six words, the last cut short after four. */
  method Expand192(rk: array<Word>, key: seq<bv8>)
    requires 24 <= |key| && 52 <= rk.Length && Filled(rk[..], key, 6, 6)
    modifies rk
    ensures Filled(rk[..], key, 6, 52)
  {
    hide Filled;
    var i, b := 0, 0;
    while true
      invariant 0 <= i < 8 && b == 6 * i && Filled(rk[..], key, 6, b + 6)
      decreases 8 - i
    {
      PutFirst(rk, b + 6, i, key, 6);
      PutXor(rk, b + 7, key, 6);
      PutXor(rk, b + 8, key, 6);
      PutXor(rk, b + 9, key, 6);
      i := i + 1;
      if i == 8 { return; }
      PutXor(rk, b + 10, key, 6);
      PutXor(rk, b + 11, key, 6);
      b := b + 6;
    }
  }

  /** Seven turns of eight words, the last cut short after four. */
  method Expand256(rk: array<Word>, key: seq<bv8>)
    requires 32 <= |key| && 60 <= rk.Length && Filled(rk[..], key, 8, 8)
    modifies rk
    ensures Filled(rk[..], key, 8, 60)
  {
    hide Filled;
    var i, b := 0, 0;
    while true
      invariant 0 <= i < 7 && b == 8 * i && Filled(rk[..], key, 8, b + 8)
      decreases 7 - i
    {
      PutFirst(rk, b + 8, i, key, 8);
      PutXor(rk, b + 9, key, 8);
      PutXor(rk, b + 10, key, 8);
      PutXor(rk, b + 11, key, 8);
      i := i + 1;
      if i == 7 { return; }
      PutMiddle(rk, b + 12, key);
      PutXor(rk, b + 13, key, 8);
      PutXor(rk, b + 14, key, 8);
      PutXor(rk, b + 15, key, 8);
      b := b + 8;
    }
  }

  /** The words of a key of keyBits bits, if there is such a size. */
  predicate KeySize(keyBits: int)
  {
    keyBits == 128 || keyBits == 192 || keyBits == 256
  }

  function WordsOf(keyBits: int): KeyWords
    requires KeySize(keyBits)
  {
    if keyBits == 128 then 4 else if keyBits == 192 then 6 else 8
  }

  /** The source reads as much of the key as the largest size takes before it refuses a size it does not know. */
  predicate Fits(rk: array<Word>, key: seq<bv8>, keyBits: int)
  {
    if KeySize(keyBits) then
      4 * WordsOf(keyBits) <= |key| && 4 * Rounds(WordsOf(keyBits)) + 4 <= rk.Length
    else 32 <= |key| && 8 <= rk.Length
  }

  /** rijndaelKeySetupEnc: the number of rounds, or zero for a size it does not know. */
  method KeySetupEnc(rk: array<Word>, key: seq<bv8>, keyBits: int) returns (nr: nat)
    requires Fits(rk, key, keyBits)
    modifies rk
    ensures if KeySize(keyBits) then
              nr == Rounds(WordsOf(keyBits)) && Filled(rk[..], key, WordsOf(keyBits), 4 * nr + 4)
            else nr == 0
    ensures KeySize(keyBits) ==> KeyExpansion(rk[..], key, WordsOf(keyBits), 4 * nr + 4)
  {
    hide Filled, KeyExpansion;
    if keyBits == 128 {
      PutKey(rk, key, 4);
      Expand128(rk, key);
      FilledExpands(rk[..], key, 4, 44);
      return 10;
    }
    if keyBits == 192 {
      PutKey(rk, key, 6);
      Expand192(rk, key);
      FilledExpands(rk[..], key, 6, 52);
      return 12;
    }
    PutKey(rk, key, 8);
    if keyBits == 256 {
      Expand256(rk, key);
      FilledExpands(rk[..], key, 8, 60);
      return 14;
    }
    return 0;
  }

  // ---------- The decryption schedule ----------

  /** The look-ups that mix a key word back: each substitution of Te4 undone by that of Td. */
  function UnmixByLookup(w: Word): Word
  {
    Xor(Xor(Xor(Td0(Te4(w.b3).b0), Td1(Te4(w.b2).b0)), Td2(Te4(w.b1).b0)), Td3(Te4(w.b0).b0))
  }

  lemma {:induction false} UnmixByLookupIs(w: Word)
    ensures UnmixByLookup(w) == Unmix(w)
  {
    hide S, Si, Add, Times9, TimesB, TimesD, TimesE;
    SubstitutionInverts(w.b3);
    SubstitutionInverts(w.b2);
    SubstitutionInverts(w.b1);
    SubstitutionInverts(w.b0);
  }

  /** Round keys p and q exchanged, word by word. */
  method SwapKeys(rk: array<Word>, p: nat, q: nat)
    requires p < q && 4 * q + 4 <= rk.Length
    modifies rk
    ensures RoundKey(rk[..], p) == old(RoundKey(rk[..], q)) && RoundKey(rk[..], q) == old(RoundKey(rk[..], p))
    ensures forall k :: 0 <= k < rk.Length && !(4 * p <= k < 4 * p + 4) && !(4 * q <= k < 4 * q + 4) ==>
            rk[k] == old(rk[k])
  {
    var i, j := 4 * p, 4 * q;
    rk[i], rk[j] := rk[j], rk[i];
    rk[i + 1], rk[j + 1] := rk[j + 1], rk[i + 1];
    rk[i + 2], rk[j + 2] := rk[j + 2], rk[i + 2];
    rk[i + 3], rk[j + 3] := rk[j + 3], rk[i + 3];
  }

  lemma {:induction false} SameKey(now: seq<Word>, before: seq<Word>, b: nat)
    requires |now| == |before| && 4 * b + 4 <= |now|
    requires forall k :: 4 * b <= k < 4 * b + 4 ==> now[k] == before[k]
    ensures RoundKey(now, b) == RoundKey(before, b)
  {
  }

  /** Where round key b comes from once the outer q pairs are exchanged. */
  function From(b: nat, nr: nat, q: nat): (f: nat)
    requires b <= nr
    ensures f <= nr
  {
    if b < q || nr - q < b then nr - b else b
  }

  /** The round keys of ek with the outer q pairs exchanged. */
  ghost predicate Exchanged(rk: seq<Word>, ek: seq<Word>, nr: nat, q: nat)
    requires |rk| == |ek| && 4 * nr + 4 <= |ek|
  {
    forall b :: 0 <= b <= nr ==> RoundKey(rk, b) == RoundKey(ek, From(b, nr, q))
  }

  lemma {:induction false} ExchangedNext(now: seq<Word>, before: seq<Word>, ek: seq<Word>, nr: nat, q: nat)
    requires |now| == |before| == |ek| && 4 * nr + 4 <= |ek| && q < nr - q && Exchanged(before, ek, nr, q)
    requires RoundKey(now, q) == RoundKey(before, nr - q) && RoundKey(now, nr - q) == RoundKey(before, q)
    requires forall k :: 0 <= k < |now| && !(4 * q <= k < 4 * q + 4) && !(4 * (nr - q) <= k < 4 * (nr - q) + 4)
               ==> now[k] == before[k]
    ensures Exchanged(now, ek, nr, q + 1)
  {
    hide RoundKey;
    forall b | 0 <= b <= nr ensures RoundKey(now, b) == RoundKey(ek, From(b, nr, q + 1)) {
      if b != q && b != nr - q { SameKey(now, before, b); }
    }
  }

  /** The first loop of rijndaelKeySetupDec. */
  method ReverseKeys(rk: array<Word>, nr: nat)
    requires nr % 2 == 0 && 4 * nr + 4 <= rk.Length
    modifies rk
    ensures forall b :: 0 <= b <= nr ==> RoundKey(rk[..], b) == RoundKey(old(rk[..]), nr - b)
  {
    hide RoundKey, Exchanged;
    ghost var ek := rk[..];
    var q: nat := 0;
    assert Exchanged(ek, ek, nr, 0) by { ExchangedNone(ek, nr); }
    while 4 * q < 4 * (nr - q)
      invariant 2 * q <= nr && Exchanged(rk[..], ek, nr, q)
    {
      ghost var before := rk[..];
      SwapKeys(rk, q, nr - q);
      ExchangedNext(rk[..], before, ek, nr, q);
      q := q + 1;
    }
    ExchangedAll(rk[..], ek, nr, q);
  }

  lemma {:induction false} ExchangedNone(ek: seq<Word>, nr: nat)
    requires 4 * nr + 4 <= |ek|
    ensures Exchanged(ek, ek, nr, 0)
  {
  }

  lemma {:induction false} ExchangedAll(rk: seq<Word>, ek: seq<Word>, nr: nat, q: nat)
    requires |rk| == |ek| && 4 * nr + 4 <= |ek| && 2 * q == nr && Exchanged(rk, ek, nr, q)
    ensures forall b :: 0 <= b <= nr ==> RoundKey(rk, b) == RoundKey(ek, nr - b)
  {
  }

  /** Round key i mixed back in place. */
  method UnmixKey(rk: array<Word>, i: nat)
    requires 4 * i + 4 <= rk.Length
    modifies rk
    ensures RoundKey(rk[..], i) == UnmixColumns(RoundKey(old(rk[..]), i))
    ensures forall k :: 0 <= k < rk.Length && !(4 * i <= k < 4 * i + 4) ==> rk[k] == old(rk[k])
  {
    hide UnmixByLookup, Unmix;
    for c := 0 to 4
      invariant forall k :: 0 <= k < rk.Length ==>
                  rk[k] == if 4 * i <= k < 4 * i + c then Unmix(old(rk[k])) else old(rk[k])
    {
      UnmixByLookupIs(rk[4 * i + c]);
      rk[4 * i + c] := UnmixByLookup(rk[4 * i + c]);
    }
  }

  /** The second loop: all round keys but the first and the last. */
  method UnmixKeys(rk: array<Word>, nr: nat)
    requires 4 * nr + 4 <= rk.Length
    modifies rk
    ensures RoundKey(rk[..], 0) == RoundKey(old(rk[..]), 0) && RoundKey(rk[..], nr) == RoundKey(old(rk[..]), nr)
    ensures forall b :: 0 < b < nr ==> RoundKey(rk[..], b) == UnmixColumns(RoundKey(old(rk[..]), b))
  {
    hide RoundKey, UnmixColumns;
    ghost var mk := rk[..];
    var i := 1;
    while i < nr
      invariant 1 <= i && (i <= nr || nr == 0)
      invariant forall b :: 0 <= b <= nr ==>
                  RoundKey(rk[..], b) == if 0 < b < i then UnmixColumns(RoundKey(mk, b)) else RoundKey(mk, b)
    {
      ghost var before := rk[..];
      UnmixKey(rk, i);
      forall b | 0 <= b <= nr
        ensures RoundKey(rk[..], b) == if 0 < b < i + 1 then UnmixColumns(RoundKey(mk, b)) else RoundKey(mk, b)
      {
        if b != i { SameKey(rk[..], before, b); }
      }
      i := i + 1;
    }
  }

  /** The encryption schedule as a sequence. */
  ghost function ScheduleWords(key: seq<bv8>, nk: KeyWords, n: nat): (ws: seq<Word>)
    requires 4 * nk <= |key|
    ensures |ws| == n && Filled(ws, key, nk, n)
  {
    if n == 0 then [] else ScheduleWords(key, nk, n - 1) + [Schedule(key, nk, n - 1)]
  }

  /** rijndaelKeySetupDec. */
  method KeySetupDec(rk: array<Word>, key: seq<bv8>, keyBits: int) returns (nr: nat)
    requires Fits(rk, key, keyBits)
    modifies rk
    ensures if KeySize(keyBits) then
              var nk := WordsOf(keyBits);
              nr == Rounds(nk) && Reversed(rk[..], ScheduleWords(key, nk, 4 * nr + 4), nr)
            else nr == 0
  {
    hide RoundKey, UnmixColumns, Filled;
    nr := KeySetupEnc(rk, key, keyBits);
    ghost var ek := rk[..];
    ReverseKeys(rk, nr);
    UnmixKeys(rk, nr);
    if KeySize(keyBits) {
      ghost var nk := WordsOf(keyBits);
      ghost var ws := ScheduleWords(key, nk, 4 * nr + 4);
      forall b | 0 <= b <= nr ensures RoundKey(ek, b) == RoundKey(ws, b) {
        FilledKey(ek, ws, key, nk, 4 * nr + 4, b);
      }
    }
  }

  lemma {:induction false} FilledKey(x: seq<Word>, y: seq<Word>, key: seq<bv8>, nk: KeyWords, n: nat, b: nat)
    requires 4 * nk <= |key| && Filled(x, key, nk, n) && Filled(y, key, nk, n) && 4 * b + 4 <= n
    ensures RoundKey(x, b) == RoundKey(y, b)
  {
    hide Schedule;
  }

  /** What is encrypted under a key is decrypted under it, for each of the three sizes. */
  lemma {:induction false} KeyedRoundTrip(pt: Block, key: seq<bv8>, keyBits: int, dk: seq<Word>)
    requires KeySize(keyBits) && 4 * WordsOf(keyBits) <= |key|
    requires var nr := Rounds(WordsOf(keyBits));
             4 * nr + 4 <= |dk| && Reversed(dk, ScheduleWords(key, WordsOf(keyBits), 4 * nr + 4), nr)
    ensures var nr := Rounds(WordsOf(keyBits));
            var ek := ScheduleWords(key, WordsOf(keyBits), 4 * nr + 4);
            InverseCipher(Cipher(pt, ek, nr), dk, nr) == pt
  {
    hide Cipher, InverseCipher, Reversed, Filled;
    var nr := Rounds(WordsOf(keyBits));
    DecryptEncrypt(pt, ScheduleWords(key, WordsOf(keyBits), 4 * nr + 4), dk, nr);
  }

  lemma {:induction false} ReversedOfFilled(dk: seq<Word>, ek: seq<Word>, key: seq<bv8>, nk: KeyWords, nr: nat)
    requires 4 * nk <= |key| && 4 * nr + 4 <= |dk| && 4 * nr + 4 <= |ek| && Filled(ek, key, nk, 4 * nr + 4)
    requires Reversed(dk, ScheduleWords(key, nk, 4 * nr + 4), nr)
    ensures Reversed(dk, ek, nr)
  {
    hide RoundKey, UnmixColumns, Filled;
    var ws := ScheduleWords(key, nk, 4 * nr + 4);
    forall b | 0 <= b <= nr ensures RoundKey(ek, b) == RoundKey(ws, b) {
      FilledKey(ek, ws, key, nk, 4 * nr + 4, b);
    }
  }

  lemma {:induction false} LoadedBytes(x: seq<bv8>, y: seq<bv8>)
    requires 16 <= |x| && 16 <= |y| && LoadBlock(x) == LoadBlock(y)
    ensures x[..16] == y[..16]
  {
  }

  /** Key set-up, encryption, key set-up for decryption and decryption, one after another on byte buffers: the sixteen
      bytes come back. */
  method EncryptThenDecrypt(ek: array<Word>, dk: array<Word>, key: seq<bv8>, keyBits: int, pt: seq<bv8>,
                            ct: array<bv8>, back: array<bv8>)
    requires KeySize(keyBits) && Fits(ek, key, keyBits) && Fits(dk, key, keyBits)
    requires 16 <= |pt| && 16 <= ct.Length && 16 <= back.Length
    requires var buffers: set<object> := {ct, back}; ek !in buffers && dk !in buffers
    modifies ek, dk, ct, back
    ensures back[..16] == pt[..16]
    ensures forall k :: 16 <= k < back.Length ==> back[k] == old(back[k])
  {
    hide Cipher, InverseCipher, Reversed, Filled, LoadBlock, ScheduleWords;
    var nr := KeySetupEnc(ek, key, keyBits);
    ghost var used := ek[..];
    Encrypt(ek[..], nr, pt, ct);
    ghost var block := ct[..];
    nr := KeySetupDec(dk, key, keyBits);
    assert ct[..] == block;
    ReversedOfFilled(dk[..], used, key, WordsOf(keyBits), nr);
    DecryptEncrypt(LoadBlock(pt), used, dk[..], nr);
    Decrypt(dk[..], nr, ct[..], back);
    LoadedBytes(back[..], pt);
  }
}
