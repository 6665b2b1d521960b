/** The table of src/cyclic.c is right: every modulus is prime, every known root is primitive and every list of
    factors is complete. Small primes by trial division, each of the others by a certificate. */
module GroupCertificates {
  import opened Modular
  import opened NumberTheory
  import opened Lucas
  import opened Bits
  import opened Cyclic

  lemma {:induction false} SmallPrimes1()
    ensures IsPrime(2) && IsPrime(3) && IsPrime(5) && IsPrime(7) && IsPrime(11) && IsPrime(13)
  {
    hide IsPrime;
    assert NoDivisor(2, 1);
    TrialPrime(2, 1);
    assert NoDivisor(3, 1);
    TrialPrime(3, 1);
    assert NoDivisor(5, 2);
    TrialPrime(5, 2);
    assert NoDivisor(7, 2);
    TrialPrime(7, 2);
    assert NoDivisor(11, 3);
    TrialPrime(11, 3);
    assert NoDivisor(13, 3);
    TrialPrime(13, 3);
  }

  lemma {:induction false} SmallPrimes2()
    ensures IsPrime(17) && IsPrime(19) && IsPrime(23) && IsPrime(29) && IsPrime(37) && IsPrime(53)
  {
    hide IsPrime;
    assert NoDivisor(17, 4);
    TrialPrime(17, 4);
    assert NoDivisor(19, 4);
    TrialPrime(19, 4);
    assert NoDivisor(23, 4);
    TrialPrime(23, 4);
    assert NoDivisor(29, 5);
    TrialPrime(29, 5);
    assert NoDivisor(37, 6);
    TrialPrime(37, 6);
    assert NoDivisor(53, 7);
    TrialPrime(53, 7);
  }

  lemma {:induction false} SmallPrimes3()
    ensures IsPrime(59) && IsPrime(73) && IsPrime(83) && IsPrime(97) && IsPrime(103) && IsPrime(109)
  {
    hide IsPrime;
    assert NoDivisor(59, 7);
    TrialPrime(59, 7);
    assert NoDivisor(73, 8);
    TrialPrime(73, 8);
    assert NoDivisor(83, 9);
    TrialPrime(83, 9);
    assert NoDivisor(97, 9);
    TrialPrime(97, 9);
    assert NoDivisor(103, 10);
    TrialPrime(103, 10);
    assert NoDivisor(109, 10);
    TrialPrime(109, 10);
  }

  lemma {:induction false} SmallPrimes4()
    ensures IsPrime(131) && IsPrime(163)
  {
    hide IsPrime;
    assert NoDivisor(131, 11);
    TrialPrime(131, 11);
    assert NoDivisor(163, 12);
    TrialPrime(163, 12);
  }

  lemma {:induction false} SmallPrimes5()
    ensures IsPrime(421) && IsPrime(883)
  {
    hide IsPrime;
    assert NoDivisor(421, 12);
    assert NoDivisor(421, 20);
    TrialPrime(421, 20);
    assert NoDivisor(883, 12);
    assert NoDivisor(883, 24);
    assert NoDivisor(883, 29);
    TrialPrime(883, 29);
  }

  lemma {:induction false} SmallPrimes6()
    ensures IsPrime(1013) && IsPrime(1039)
  {
    hide IsPrime;
    assert NoDivisor(1013, 12);
    assert NoDivisor(1013, 24);
    assert NoDivisor(1013, 31);
    TrialPrime(1013, 31);
    assert NoDivisor(1039, 12);
    assert NoDivisor(1039, 24);
    assert NoDivisor(1039, 32);
    TrialPrime(1039, 32);
  }

  lemma {:induction false} SmallPrimes7()
    ensures IsPrime(1277) && IsPrime(1361)
  {
    hide IsPrime;
    assert NoDivisor(1277, 12);
    assert NoDivisor(1277, 24);
    assert NoDivisor(1277, 35);
    TrialPrime(1277, 35);
    assert NoDivisor(1361, 12);
    assert NoDivisor(1361, 24);
    assert NoDivisor(1361, 36);
    TrialPrime(1361, 36);
  }

  lemma {:induction false} SmallPrimes8()
    ensures IsPrime(1423) && IsPrime(1613)
  {
    hide IsPrime;
    assert NoDivisor(1423, 12);
    assert NoDivisor(1423, 24);
    assert NoDivisor(1423, 36);
    assert NoDivisor(1423, 37);
    TrialPrime(1423, 37);
    assert NoDivisor(1613, 12);
    assert NoDivisor(1613, 24);
    assert NoDivisor(1613, 36);
    assert NoDivisor(1613, 40);
    TrialPrime(1613, 40);
  }

  lemma {:induction false} SmallPrimes9()
    ensures IsPrime(2179)
  {
    hide IsPrime;
    assert NoDivisor(2179, 12);
    assert NoDivisor(2179, 24);
    assert NoDivisor(2179, 36);
    assert NoDivisor(2179, 46);
    TrialPrime(2179, 46);
  }

  lemma {:induction false} SmallPrimes10()
    ensures IsPrime(3541)
  {
    hide IsPrime;
    assert NoDivisor(3541, 12);
    assert NoDivisor(3541, 24);
    assert NoDivisor(3541, 36);
    assert NoDivisor(3541, 48);
    assert NoDivisor(3541, 59);
    TrialPrime(3541, 59);
  }

  lemma {:induction false} SmallPrimes()
    ensures IsPrime(2) && IsPrime(3) && IsPrime(5) && IsPrime(7) && IsPrime(11) && IsPrime(13) && IsPrime(17)
    ensures IsPrime(19) && IsPrime(23) && IsPrime(29) && IsPrime(37) && IsPrime(53) && IsPrime(59) && IsPrime(73)
    ensures IsPrime(83) && IsPrime(97) && IsPrime(103) && IsPrime(109) && IsPrime(131) && IsPrime(163)
    ensures IsPrime(421) && IsPrime(883) && IsPrime(1013) && IsPrime(1039) && IsPrime(1277) && IsPrime(1361)
    ensures IsPrime(1423) && IsPrime(1613) && IsPrime(2179) && IsPrime(3541)
  {
    hide IsPrime;
    SmallPrimes1();
    SmallPrimes2();
    SmallPrimes3();
    SmallPrimes4();
    SmallPrimes5();
    SmallPrimes6();
    SmallPrimes7();
    SmallPrimes8();
    SmallPrimes9();
    SmallPrimes10();
  }

  lemma {:induction false} Power257By2()
    ensures Power(3, 257, 128, 256) && Power(3, 257, 256, 1)
  {
    hide Power, Rem, Pow;
    PowerZero(3, 257);
    PowerByte(3, 257, 0, 1, 1, 3, 0, 9, 0, 81, 0, 136, 0, 249, 0, 64, 0, 241, 0, 256);
    PowerBit(3, 257, 128, 256, 0, 1);
  }

  lemma {:induction false} Factors257()
    ensures Only(256, [2])
  {
    hide IsPrime, Divides, Only;
    SmallPrimes();
    var fs: seq<nat> := [2];
    OnlyOne(fs); OnlyTimes(2, 1, fs); OnlyTimes(2, 2, fs); OnlyTimes(2, 4, fs); OnlyTimes(2, 8, fs);
    OnlyTimes(2, 16, fs); OnlyTimes(2, 32, fs); OnlyTimes(2, 64, fs); OnlyTimes(2, 128, fs);
  }

  lemma {:induction false} Witnesses257()
    ensures Witness(3, 257, 2)
  {
    hide IsPrime, Divides, Rem, Pow, Power, Witness;
    SmallPrimes();
    Power257By2();
    Witnessed(3, 257, 2, 128, 256);
  }

  lemma {:induction false} Prime257()
    ensures Certificate(3, 257, [2]) && IsPrime(257)
  {
    hide IsPrime, Divides, Only, Rem, Pow, Power, Witness;
    Power257By2();
    Factors257();
    Witnesses257();
    Certified(3, 257, [2]);
  }

  lemma {:induction false} Power20261By2()
    ensures Power(2, 20261, 10130, 20260) && Power(2, 20261, 20260, 1)
  {
    hide Power, Rem, Pow;
    PowerZero(2, 20261);
    PowerByte(2, 20261, 0, 1, 0, 1, 0, 1, 1, 2, 0, 4, 0, 16, 1, 512, 1, 17763, 1, 19493);
    PowerByte(2, 20261, 39, 19493, 1, 4510, 0, 18317, 0, 10590, 1, 6930, 0, 6330, 0, 12903, 1, 5544, 0, 20260);
    PowerBit(2, 20261, 10130, 20260, 0, 1);
  }

  lemma {:induction false} Power20261By5()
    ensures Power(2, 20261, 4052, 15591)
  {
    hide Power, Rem, Pow;
    PowerZero(2, 20261);
    PowerByte(2, 20261, 0, 1, 0, 1, 0, 1, 0, 1, 0, 1, 1, 2, 1, 8, 1, 128, 1, 12507);
    PowerByte(2, 20261, 15, 12507, 1, 20258, 1, 18, 0, 324, 1, 7342, 0, 10704, 1, 19583, 0, 13942, 0, 15591);
  }

  lemma {:induction false} Power20261By1013()
    ensures Power(2, 20261, 20, 15265)
  {
    hide Power, Rem, Pow;
    PowerZero(2, 20261);
    PowerByte(2, 20261, 0, 1, 0, 1, 0, 1, 0, 1, 1, 2, 0, 4, 1, 32, 0, 1024, 0, 15265);
  }

  lemma {:induction false} Factors20261()
    ensures Only(20260, [2, 5, 1013])
  {
    hide IsPrime, Divides, Only;
    SmallPrimes();
    var fs: seq<nat> := [2, 5, 1013];
    OnlyOne(fs); OnlyTimes(1013, 1, fs); OnlyTimes(5, 1013, fs); OnlyTimes(2, 5065, fs); OnlyTimes(2, 10130, fs);
  }

  lemma {:induction false} Witnesses20261()
    ensures Witness(2, 20261, 2) && Witness(2, 20261, 5) && Witness(2, 20261, 1013)
  {
    hide IsPrime, Divides, Rem, Pow, Power, Witness;
    SmallPrimes();
    Power20261By2();
    Witnessed(2, 20261, 2, 10130, 20260);
    Power20261By5();
    Witnessed(2, 20261, 5, 4052, 15591);
    Power20261By1013();
    Witnessed(2, 20261, 1013, 20, 15265);
  }

  lemma {:induction false} Prime20261()
    ensures Certificate(2, 20261, [2, 5, 1013]) && IsPrime(20261)
  {
    hide IsPrime, Divides, Only, Rem, Pow, Power, Witness;
    Power20261By2();
    Factors20261();
    Witnesses20261();
    Certified(2, 20261, [2, 5, 1013]);
  }

  lemma {:induction false} Power65537By2()
    ensures Power(3, 65537, 32768, 65536) && Power(3, 65537, 65536, 1)
  {
    hide Power, Rem, Pow;
    PowerZero(3, 65537);
    PowerByte(3, 65537, 0, 1, 1, 3, 0, 9, 0, 81, 0, 6561, 0, 54449, 0, 61869, 0, 19139, 0, 15028);
    PowerByte(3, 65537, 128, 15028, 0, 282, 0, 13987, 0, 8224, 0, 65529, 0, 64, 0, 4096, 0, 65281, 0, 65536);
    PowerBit(3, 65537, 32768, 65536, 0, 1);
  }

  lemma {:induction false} Factors65537()
    ensures Only(65536, [2])
  {
    hide IsPrime, Divides, Only;
    SmallPrimes();
    var fs: seq<nat> := [2];
    OnlyOne(fs); OnlyTimes(2, 1, fs); OnlyTimes(2, 2, fs); OnlyTimes(2, 4, fs); OnlyTimes(2, 8, fs);
    OnlyTimes(2, 16, fs); OnlyTimes(2, 32, fs); OnlyTimes(2, 64, fs); OnlyTimes(2, 128, fs); OnlyTimes(2, 256, fs);
    OnlyTimes(2, 512, fs); OnlyTimes(2, 1024, fs); OnlyTimes(2, 2048, fs); OnlyTimes(2, 4096, fs);
    OnlyTimes(2, 8192, fs); OnlyTimes(2, 16384, fs); OnlyTimes(2, 32768, fs);
  }

  lemma {:induction false} Witnesses65537()
    ensures Witness(3, 65537, 2)
  {
    hide IsPrime, Divides, Rem, Pow, Power, Witness;
    SmallPrimes();
    Power65537By2();
    Witnessed(3, 65537, 2, 32768, 65536);
  }

  lemma {:induction false} Prime65537()
    ensures Certificate(3, 65537, [2]) && IsPrime(65537)
  {
    hide IsPrime, Divides, Only, Rem, Pow, Power, Witness;
    Power65537By2();
    Factors65537();
    Witnesses65537();
    Certified(3, 65537, [2]);
  }

  lemma {:induction false} Power87211By2()
    ensures Power(13, 87211, 43605, 87210) && Power(13, 87211, 87210, 1)
  {
    hide Power, Rem, Pow;
    PowerZero(13, 87211);
    PowerByte(13, 87211, 0, 1, 1, 13, 0, 169, 1, 22449, 0, 52443, 1, 29622, 0, 33013, 1, 31559, 0, 20861);
    PowerByte(13, 87211, 170, 20861, 0, 85642, 1, 83667, 0, 1552, 1, 4403, 0, 25567, 1, 63939, 0, 5674, 1, 87210);
    PowerBit(13, 87211, 43605, 87210, 0, 1);
  }

  lemma {:induction false} Power87211By3()
    ensures Power(13, 87211, 29070, 511)
  {
    hide Power, Rem, Pow;
    PowerZero(13, 87211);
    PowerByte(13, 87211, 0, 1, 0, 1, 1, 13, 1, 2197, 1, 43808, 0, 62809, 0, 68107, 0, 71992, 1, 73718);
    PowerByte(13, 87211, 113, 73718, 1, 61519, 0, 66016, 0, 4164, 0, 71118, 1, 19782, 1, 65760, 1, 512, 0, 511);
  }

  lemma {:induction false} Power87211By5()
    ensures Power(13, 87211, 17442, 51537)
  {
    hide Power, Rem, Pow;
    PowerZero(13, 87211);
    PowerByte(13, 87211, 0, 1, 0, 1, 1, 13, 0, 169, 0, 28561, 0, 46238, 1, 23571, 0, 57971, 0, 48167);
    PowerByte(13, 87211, 68, 48167, 0, 72867, 0, 19587, 1, 34729, 0, 62522, 0, 29042, 0, 20183, 1, 56226, 0, 51537);
  }

  lemma {:induction false} Power87211By17()
    ensures Power(13, 87211, 5130, 27518)
  {
    hide Power, Rem, Pow;
    PowerZero(13, 87211);
    PowerByte(13, 87211, 0, 1, 0, 1, 0, 1, 0, 1, 1, 13, 0, 169, 1, 22449, 0, 52443, 0, 69364);
    PowerByte(13, 87211, 20, 69364, 0, 20837, 0, 44211, 0, 39589, 0, 20040, 1, 21496, 0, 34138, 1, 31863, 0, 27518);
  }

  lemma {:induction false} Power87211By19()
    ensures Power(13, 87211, 4590, 10543)
  {
    hide Power, Rem, Pow;
    PowerZero(13, 87211);
    PowerByte(13, 87211, 0, 1, 0, 1, 0, 1, 0, 1, 1, 13, 0, 169, 0, 28561, 0, 46238, 1, 23571);
    PowerByte(13, 87211, 17, 23571, 1, 55935, 1, 35956, 1, 60514, 0, 41517, 1, 38472, 1, 43684, 1, 14701, 0, 10543);
  }

  lemma {:induction false} Factors87211()
    ensures Only(87210, [2, 3, 5, 17, 19])
  {
    hide IsPrime, Divides, Only;
    SmallPrimes();
    var fs: seq<nat> := [2, 3, 5, 17, 19];
    OnlyOne(fs); OnlyTimes(19, 1, fs); OnlyTimes(17, 19, fs); OnlyTimes(5, 323, fs); OnlyTimes(3, 1615, fs);
    OnlyTimes(3, 4845, fs); OnlyTimes(3, 14535, fs); OnlyTimes(2, 43605, fs);
  }

  lemma {:induction false} Witnesses87211A()
    ensures Witness(13, 87211, 2) && Witness(13, 87211, 3) && Witness(13, 87211, 5)
  {
    hide IsPrime, Divides, Rem, Pow, Power, Witness;
    SmallPrimes();
    Power87211By2();
    Witnessed(13, 87211, 2, 43605, 87210);
    Power87211By3();
    Witnessed(13, 87211, 3, 29070, 511);
    Power87211By5();
    Witnessed(13, 87211, 5, 17442, 51537);
  }

  lemma {:induction false} Witnesses87211B()
    ensures Witness(13, 87211, 17) && Witness(13, 87211, 19)
  {
    hide IsPrime, Divides, Rem, Pow, Power, Witness;
    SmallPrimes();
    Power87211By17();
    Witnessed(13, 87211, 17, 5130, 27518);
    Power87211By19();
    Witnessed(13, 87211, 19, 4590, 10543);
  }

  lemma {:induction false} Prime87211()
    ensures Certificate(13, 87211, [2, 3, 5, 17, 19]) && IsPrime(87211)
  {
    hide IsPrime, Divides, Only, Rem, Pow, Power, Witness;
    Power87211By2();
    Factors87211();
    Witnesses87211A();
    Witnesses87211B();
    Certified(13, 87211, [2, 3, 5, 17, 19]);
  }

  lemma {:induction false} Power119363By2()
    ensures Power(2, 119363, 59681, 119362) && Power(2, 119363, 119362, 1)
  {
    hide Power, Rem, Pow;
    PowerZero(2, 119363);
    PowerByte(2, 119363, 0, 1, 1, 2, 1, 8, 1, 128, 0, 16384, 1, 95501, 0, 33534, 0, 10333, 1, 1371);
    PowerByte(2, 119363, 233, 1371, 0, 89196, 0, 24377, 1, 98230, 0, 66706, 0, 76522, 0, 25793, 0, 68850, 1, 119362);
    PowerBit(2, 119363, 59681, 119362, 0, 1);
  }

  lemma {:induction false} Power119363By37()
    ensures Power(2, 119363, 3226, 114350)
  {
    hide Power, Rem, Pow;
    PowerZero(2, 119363);
    PowerByte(2, 119363, 0, 1, 0, 1, 0, 1, 0, 1, 0, 1, 1, 2, 1, 8, 0, 64, 0, 4096);
    PowerByte(2, 119363, 12, 4096, 1, 13429, 0, 99911, 0, 118957, 1, 90946, 1, 70388, 0, 70503, 1, 79200, 0, 114350);
  }

  lemma {:induction false} Power119363By1613()
    ensures Power(2, 119363, 74, 92031)
  {
    hide Power, Rem, Pow;
    PowerZero(2, 119363);
    PowerByte(2, 119363, 0, 1, 0, 1, 1, 2, 0, 4, 0, 16, 1, 512, 0, 23418, 1, 98204, 0, 92031);
  }

  lemma {:induction false} Factors119363()
    ensures Only(119362, [2, 37, 1613])
  {
    hide IsPrime, Divides, Only;
    SmallPrimes();
    var fs: seq<nat> := [2, 37, 1613];
    OnlyOne(fs); OnlyTimes(1613, 1, fs); OnlyTimes(37, 1613, fs); OnlyTimes(2, 59681, fs);
  }

  lemma {:induction false} Witnesses119363()
    ensures Witness(2, 119363, 2) && Witness(2, 119363, 37) && Witness(2, 119363, 1613)
  {
    hide IsPrime, Divides, Rem, Pow, Power, Witness;
    SmallPrimes();
    Power119363By2();
    Witnessed(2, 119363, 2, 59681, 119362);
    Power119363By37();
    Witnessed(2, 119363, 37, 3226, 114350);
    Power119363By1613();
    Witnessed(2, 119363, 1613, 74, 92031);
  }

  lemma {:induction false} Prime119363()
    ensures Certificate(2, 119363, [2, 37, 1613]) && IsPrime(119363)
  {
    hide IsPrime, Divides, Only, Rem, Pow, Power, Witness;
    Power119363By2();
    Factors119363();
    Witnesses119363();
    Certified(2, 119363, [2, 37, 1613]);
  }

  lemma {:induction false} Power238727By2()
    ensures Power(5, 238727, 119363, 238726) && Power(5, 238727, 238726, 1)
  {
    hide Power, Rem, Pow;
    PowerZero(5, 238727);
    PowerByte(5, 238727, 0, 1, 0, 1, 0, 1, 0, 1, 0, 1, 0, 1, 0, 1, 0, 1, 1, 5);
    PowerByte(5, 238727, 1, 5, 1, 125, 1, 78125, 0, 221143, 1, 227955, 0, 14662, 0, 119944, 1, 73494, 0, 169661);
    PowerByte(5, 238727, 466, 169661, 0, 108169, 1, 224185, 0, 196369, 0, 166759, 0, 210759, 0, 139372, 1, 34148, 1,
              238726);
    PowerBit(5, 238727, 119363, 238726, 0, 1);
  }

  lemma {:induction false} Power238727By119363()
    ensures Power(5, 238727, 2, 25)
  {
    hide Power, Rem, Pow;
    PowerZero(5, 238727);
    PowerByte(5, 238727, 0, 1, 0, 1, 0, 1, 0, 1, 0, 1, 0, 1, 0, 1, 1, 5, 0, 25);
  }

  lemma {:induction false} Factors238727()
    ensures Only(238726, [2, 119363])
  {
    hide IsPrime, Divides, Only;
    SmallPrimes();
    Prime119363();
    var fs: seq<nat> := [2, 119363];
    OnlyOne(fs); OnlyTimes(119363, 1, fs); OnlyTimes(2, 119363, fs);
  }

  lemma {:induction false} Witnesses238727()
    ensures Witness(5, 238727, 2) && Witness(5, 238727, 119363)
  {
    hide IsPrime, Divides, Rem, Pow, Power, Witness;
    SmallPrimes();
    Prime119363();
    Power238727By2();
    Witnessed(5, 238727, 2, 119363, 238726);
    Power238727By119363();
    Witnessed(5, 238727, 119363, 2, 25);
  }

  lemma {:induction false} Prime238727()
    ensures Certificate(5, 238727, [2, 119363]) && IsPrime(238727)
  {
    hide IsPrime, Divides, Only, Rem, Pow, Power, Witness;
    Power238727By2();
    Factors238727();
    Witnesses238727();
    Certified(5, 238727, [2, 119363]);
  }

  lemma {:induction false} Power364289By2()
    ensures Power(3, 364289, 182144, 364288) && Power(3, 364289, 364288, 1)
  {
    hide Power, Rem, Pow;
    PowerZero(3, 364289);
    PowerByte(3, 364289, 0, 1, 0, 1, 0, 1, 0, 1, 0, 1, 0, 1, 0, 1, 1, 3, 0, 9);
    PowerByte(3, 364289, 2, 9, 1, 243, 1, 177147, 0, 112282, 0, 298101, 0, 276119, 1, 64920, 1, 76588, 1, 185087);
    PowerByte(3, 364289, 711, 185087, 1, 201472, 0, 64959, 0, 112194, 0, 215819, 0, 213510, 0, 123218, 0, 202871, 0,
              364288);
    PowerBit(3, 364289, 182144, 364288, 0, 1);
  }

  lemma {:induction false} Power364289By1423()
    ensures Power(3, 364289, 256, 15680)
  {
    hide Power, Rem, Pow;
    PowerZero(3, 364289);
    PowerByte(3, 364289, 0, 1, 0, 1, 0, 1, 0, 1, 0, 1, 0, 1, 0, 1, 0, 1, 1, 3);
    PowerByte(3, 364289, 1, 3, 0, 9, 0, 81, 0, 6561, 0, 60619, 0, 80018, 0, 136860, 0, 12087, 0, 15680);
  }

  lemma {:induction false} Factors364289()
    ensures Only(364288, [2, 1423])
  {
    hide IsPrime, Divides, Only;
    SmallPrimes();
    var fs: seq<nat> := [2, 1423];
    OnlyOne(fs); OnlyTimes(1423, 1, fs); OnlyTimes(2, 1423, fs); OnlyTimes(2, 2846, fs); OnlyTimes(2, 5692, fs);
    OnlyTimes(2, 11384, fs); OnlyTimes(2, 22768, fs); OnlyTimes(2, 45536, fs); OnlyTimes(2, 91072, fs);
    OnlyTimes(2, 182144, fs);
  }

  lemma {:induction false} Witnesses364289()
    ensures Witness(3, 364289, 2) && Witness(3, 364289, 1423)
  {
    hide IsPrime, Divides, Rem, Pow, Power, Witness;
    SmallPrimes();
    Power364289By2();
    Witnessed(3, 364289, 2, 182144, 364288);
    Power364289By1423();
    Witnessed(3, 364289, 1423, 256, 15680);
  }

  lemma {:induction false} Prime364289()
    ensures Certificate(3, 364289, [2, 1423]) && IsPrime(364289)
  {
    hide IsPrime, Divides, Only, Rem, Pow, Power, Witness;
    Power364289By2();
    Factors364289();
    Witnesses364289();
    Certified(3, 364289, [2, 1423]);
  }

  lemma {:induction false} Power3033169By2()
    ensures Power(7, 3033169, 1516584, 3033168) && Power(7, 3033169, 3033168, 1)
  {
    hide Power, Rem, Pow;
    PowerZero(7, 3033169);
    PowerByte(7, 3033169, 0, 1, 0, 1, 0, 1, 0, 1, 1, 7, 0, 49, 1, 16807, 1, 2733724, 1, 2329160);
    PowerByte(7, 3033169, 23, 2329160, 0, 2791143, 0, 24948, 1, 1188244, 0, 1833050, 0, 480356, 1, 382962, 0, 105956,
              0, 915467);
    PowerByte(7, 3033169, 5924, 915467, 0, 67544, 0, 305760, 1, 2865605, 0, 2681832, 1, 1926784, 0, 854402, 0, 894867,
              0, 3033168);
    PowerBit(7, 3033169, 1516584, 3033168, 0, 1);
  }

  lemma {:induction false} Power3033169By3()
    ensures Power(7, 3033169, 1011056, 1554651)
  {
    hide Power, Rem, Pow;
    PowerZero(7, 3033169);
    PowerByte(7, 3033169, 0, 1, 0, 1, 0, 1, 0, 1, 0, 1, 1, 7, 1, 343, 1, 823543, 1, 2926777);
    PowerByte(7, 3033169, 15, 2926777, 0, 2504125, 1, 1058551, 1, 199756, 0, 1121341, 1, 1607289, 1, 1122731, 0,
              525341, 1, 2230825);
    PowerByte(7, 3033169, 3949, 2230825, 0, 2172114, 1, 107387, 1, 2047786, 1, 2075356, 0, 2546736, 0, 2582968, 0,
              1554652, 0, 1554651);
  }

  lemma {:induction false} Power3033169By29()
    ensures Power(7, 3033169, 104592, 4)
  {
    hide Power, Rem, Pow;
    PowerZero(7, 3033169);
    PowerByte(7, 3033169, 0, 1, 0, 1, 0, 1, 0, 1, 0, 1, 0, 1, 0, 1, 0, 1, 1, 7);
    PowerByte(7, 3033169, 1, 7, 1, 343, 0, 117649, 0, 937054, 1, 1901587, 1, 2781816, 0, 453508, 0, 2448850, 0,
              25276);
    PowerByte(7, 3033169, 408, 25276, 1, 1242126, 0, 990984, 0, 161126, 1, 1827666, 0, 717574, 0, 1676036, 0, 2, 0,
              4);
  }

  lemma {:induction false} Power3033169By2179()
    ensures Power(7, 3033169, 1392, 1511637)
  {
    hide Power, Rem, Pow;
    PowerZero(7, 3033169);
    PowerByte(7, 3033169, 0, 1, 0, 1, 0, 1, 0, 1, 0, 1, 0, 1, 1, 7, 0, 49, 1, 16807);
    PowerByte(7, 3033169, 5, 16807, 0, 390532, 1, 976055, 1, 547564, 1, 1248136, 0, 1809758, 0, 2066026, 0, 2992567,
              0, 1511637);
  }

  lemma {:induction false} Factors3033169()
    ensures Only(3033168, [2, 3, 29, 2179])
  {
    hide IsPrime, Divides, Only;
    SmallPrimes();
    var fs: seq<nat> := [2, 3, 29, 2179];
    OnlyOne(fs); OnlyTimes(2179, 1, fs); OnlyTimes(29, 2179, fs); OnlyTimes(3, 63191, fs); OnlyTimes(2, 189573, fs);
    OnlyTimes(2, 379146, fs); OnlyTimes(2, 758292, fs); OnlyTimes(2, 1516584, fs);
  }

  lemma {:induction false} Witnesses3033169()
    ensures Witness(7, 3033169, 2) && Witness(7, 3033169, 3) && Witness(7, 3033169, 29)
    ensures Witness(7, 3033169, 2179)
  {
    hide IsPrime, Divides, Rem, Pow, Power, Witness;
    SmallPrimes();
    Power3033169By2();
    Witnessed(7, 3033169, 2, 1516584, 3033168);
    Power3033169By3();
    Witnessed(7, 3033169, 3, 1011056, 1554651);
    Power3033169By29();
    Witnessed(7, 3033169, 29, 104592, 4);
    Power3033169By2179();
    Witnessed(7, 3033169, 2179, 1392, 1511637);
  }

  lemma {:induction false} Prime3033169()
    ensures Certificate(7, 3033169, [2, 3, 29, 2179]) && IsPrime(3033169)
  {
    hide IsPrime, Divides, Only, Rem, Pow, Power, Witness;
    Power3033169By2();
    Factors3033169();
    Witnesses3033169();
    Certified(7, 3033169, [2, 3, 29, 2179]);
  }

  lemma {:induction false} Power6994549By2()
    ensures Power(6, 6994549, 3497274, 6994548) && Power(6, 6994549, 6994548, 1)
  {
    hide Power, Rem, Pow;
    PowerZero(6, 6994549);
    PowerByte(6, 6994549, 0, 1, 0, 1, 0, 1, 1, 6, 1, 216, 0, 46656, 1, 1871033, 0, 6701687, 1, 5947236);
    PowerByte(6, 6994549, 53, 5947236, 0, 329436, 1, 3934872, 0, 55396, 1, 2647928, 1, 1525664, 1, 6764409, 0,
              1694572, 1, 3847521);
    PowerByte(6, 6994549, 13661, 3847521, 0, 461763, 0, 3236453, 1, 3719553, 1, 6910930, 1, 6512613, 0, 1314002, 1,
              1995771, 0, 6994548);
    PowerBit(6, 6994549, 3497274, 6994548, 0, 1);
  }

  lemma {:induction false} Power6994549By3()
    ensures Power(6, 6994549, 2331516, 2304617)
  {
    hide Power, Rem, Pow;
    PowerZero(6, 6994549);
    PowerByte(6, 6994549, 0, 1, 0, 1, 0, 1, 1, 6, 0, 36, 0, 1296, 0, 1679616, 1, 4744814, 1, 3722794);
    PowerByte(6, 6994549, 35, 3722794, 1, 6577333, 0, 2844242, 0, 6033987, 1, 2514348, 0, 6686042, 0, 1740806, 1,
              5128630, 1, 2243966);
    PowerByte(6, 6994549, 9107, 2243966, 0, 589507, 1, 988649, 1, 2445803, 1, 4057587, 1, 2092022, 1, 1745811, 0,
              2304618, 0, 2304617);
  }

  lemma {:induction false} Power6994549By11()
    ensures Power(6, 6994549, 635868, 5235140)
  {
    hide Power, Rem, Pow;
    PowerZero(6, 6994549);
    PowerByte(6, 6994549, 0, 1, 0, 1, 0, 1, 0, 1, 0, 1, 1, 6, 0, 36, 0, 1296, 1, 3083147);
    PowerByte(6, 6994549, 9, 3083147, 1, 2944128, 0, 6744918, 1, 200171, 1, 931767, 0, 5336762, 0, 1511583, 1,
              3938981, 1, 2585841);
    PowerByte(6, 6994549, 2483, 2585841, 1, 2991251, 1, 2510189, 0, 2354522, 1, 2370463, 1, 3480334, 1, 4721462, 0,
              2201426, 0, 5235140);
  }

  lemma {:induction false} Power6994549By17()
    ensures Power(6, 6994549, 411444, 3396088)
  {
    hide Power, Rem, Pow;
    PowerZero(6, 6994549);
    PowerByte(6, 6994549, 0, 1, 0, 1, 0, 1, 0, 1, 0, 1, 0, 1, 1, 6, 1, 216, 0, 46656);
    PowerByte(6, 6994549, 6, 46656, 0, 1477597, 1, 2282706, 0, 3524808, 0, 933693, 0, 3014536, 1, 4913919, 1, 2366331,
              1, 366647);
    PowerByte(6, 6994549, 1607, 366647, 0, 1785378, 0, 4743506, 1, 3356088, 1, 5470617, 0, 3608899, 1, 5931564, 0,
              2692020, 0, 3396088);
  }

  lemma {:induction false} Power6994549By1039()
    ensures Power(6, 6994549, 6732, 1185784)
  {
    hide Power, Rem, Pow;
    PowerZero(6, 6994549);
    PowerByte(6, 6994549, 0, 1, 0, 1, 0, 1, 0, 1, 1, 6, 1, 216, 0, 46656, 1, 1871033, 0, 6701687);
    PowerByte(6, 6994549, 26, 6701687, 0, 991206, 1, 54906, 0, 18217, 0, 3115286, 1, 1072836, 1, 4378696, 0, 3565497,
              0, 1185784);
  }

  lemma {:induction false} Factors6994549()
    ensures Only(6994548, [2, 3, 11, 17, 1039])
  {
    hide IsPrime, Divides, Only;
    SmallPrimes();
    var fs: seq<nat> := [2, 3, 11, 17, 1039];
    OnlyOne(fs); OnlyTimes(1039, 1, fs); OnlyTimes(17, 1039, fs); OnlyTimes(11, 17663, fs); OnlyTimes(3, 194293, fs);
    OnlyTimes(3, 582879, fs); OnlyTimes(2, 1748637, fs); OnlyTimes(2, 3497274, fs);
  }

  lemma {:induction false} Witnesses6994549A()
    ensures Witness(6, 6994549, 2) && Witness(6, 6994549, 3) && Witness(6, 6994549, 11)
  {
    hide IsPrime, Divides, Rem, Pow, Power, Witness;
    SmallPrimes();
    Power6994549By2();
    Witnessed(6, 6994549, 2, 3497274, 6994548);
    Power6994549By3();
    Witnessed(6, 6994549, 3, 2331516, 2304617);
    Power6994549By11();
    Witnessed(6, 6994549, 11, 635868, 5235140);
  }

  lemma {:induction false} Witnesses6994549B()
    ensures Witness(6, 6994549, 17) && Witness(6, 6994549, 1039)
  {
    hide IsPrime, Divides, Rem, Pow, Power, Witness;
    SmallPrimes();
    Power6994549By17();
    Witnessed(6, 6994549, 17, 411444, 3396088);
    Power6994549By1039();
    Witnessed(6, 6994549, 1039, 6732, 1185784);
  }

  lemma {:induction false} Prime6994549()
    ensures Certificate(6, 6994549, [2, 3, 11, 17, 1039]) && IsPrime(6994549)
  {
    hide IsPrime, Divides, Only, Rem, Pow, Power, Witness;
    Power6994549By2();
    Factors6994549();
    Witnesses6994549A();
    Witnesses6994549B();
    Certified(6, 6994549, [2, 3, 11, 17, 1039]);
  }

  lemma {:induction false} Power16777259By2()
    ensures Power(2, 16777259, 8388629, 16777258) && Power(2, 16777259, 16777258, 1)
  {
    hide Power, Rem, Pow;
    PowerZero(2, 16777259);
    PowerByte(2, 16777259, 0, 1, 1, 2, 0, 4, 0, 16, 0, 256, 0, 65536, 0, 16766251, 0, 3735251, 0, 14007788);
    PowerByte(2, 16777259, 128, 14007788, 0, 10786365, 0, 9271709, 0, 9822056, 0, 4815487, 0, 8415952, 0, 12513925, 0,
              4158208, 0, 314087);
    PowerByte(2, 16777259, 32768, 314087, 0, 360649, 0, 10389433, 0, 13847196, 1, 3639719, 0, 12588194, 1, 15273760,
              0, 8474377, 1, 16777258);
    PowerBit(2, 16777259, 8388629, 16777258, 0, 1);
  }

  lemma {:induction false} Power16777259By23()
    ensures Power(2, 16777259, 729446, 13409975)
  {
    hide Power, Rem, Pow;
    PowerZero(2, 16777259);
    PowerByte(2, 16777259, 0, 1, 0, 1, 0, 1, 0, 1, 0, 1, 1, 2, 0, 4, 1, 32, 1, 2048);
    PowerByte(2, 16777259, 11, 2048, 0, 4194304, 0, 5243009, 1, 14313594, 0, 2025723, 0, 3893919, 0, 6361980, 0,
              4505339, 1, 7303175);
    PowerByte(2, 16777259, 2849, 7303175, 0, 15875351, 1, 2052957, 1, 866400, 0, 837822, 0, 1964383, 1, 11669601, 1,
              4526432, 0, 13409975);
  }

  lemma {:induction false} Power16777259By103()
    ensures Power(2, 16777259, 162886, 6829168)
  {
    hide Power, Rem, Pow;
    PowerZero(2, 16777259);
    PowerByte(2, 16777259, 0, 1, 0, 1, 0, 1, 0, 1, 0, 1, 0, 1, 0, 1, 1, 2, 0, 4);
    PowerByte(2, 16777259, 2, 4, 0, 16, 1, 512, 1, 524288, 1, 15368235, 1, 6600363, 1, 9417212, 0, 12201081, 0,
              13626625);
    PowerByte(2, 16777259, 636, 13626625, 0, 11210239, 1, 7757890, 0, 14145767, 0, 3602850, 0, 13165977, 1, 16771734,
              1, 10719473, 0, 6829168);
  }

  lemma {:induction false} Power16777259By3541()
    ensures Power(2, 16777259, 4738, 8449919)
  {
    hide Power, Rem, Pow;
    PowerZero(2, 16777259);
    PowerByte(2, 16777259, 0, 1, 0, 1, 0, 1, 0, 1, 1, 2, 0, 4, 0, 16, 1, 512, 0, 262144);
    PowerByte(2, 16777259, 18, 262144, 1, 16425003, 0, 16459231, 0, 8491532, 0, 6668392, 0, 14753783, 0, 15395403, 1,
              10988784, 0, 8449919);
  }

  lemma {:induction false} Factors16777259()
    ensures Only(16777258, [2, 23, 103, 3541])
  {
    hide IsPrime, Divides, Only;
    SmallPrimes();
    var fs: seq<nat> := [2, 23, 103, 3541];
    OnlyOne(fs); OnlyTimes(3541, 1, fs); OnlyTimes(103, 3541, fs); OnlyTimes(23, 364723, fs);
    OnlyTimes(2, 8388629, fs);
  }

  lemma {:induction false} Witnesses16777259()
    ensures Witness(2, 16777259, 2) && Witness(2, 16777259, 23) && Witness(2, 16777259, 103)
    ensures Witness(2, 16777259, 3541)
  {
    hide IsPrime, Divides, Rem, Pow, Power, Witness;
    SmallPrimes();
    Power16777259By2();
    Witnessed(2, 16777259, 2, 8388629, 16777258);
    Power16777259By23();
    Witnessed(2, 16777259, 23, 729446, 13409975);
    Power16777259By103();
    Witnessed(2, 16777259, 103, 162886, 6829168);
    Power16777259By3541();
    Witnessed(2, 16777259, 3541, 4738, 8449919);
  }

  lemma {:induction false} Prime16777259()
    ensures Certificate(2, 16777259, [2, 23, 103, 3541]) && IsPrime(16777259)
  {
    hide IsPrime, Divides, Only, Rem, Pow, Power, Witness;
    Power16777259By2();
    Factors16777259();
    Witnesses16777259();
    Certified(2, 16777259, [2, 23, 103, 3541]);
  }

  lemma {:induction false} Power155542661By2()
    ensures Power(2, 155542661, 77771330, 155542660) && Power(2, 155542661, 155542660, 1)
  {
    hide Power, Rem, Pow;
    PowerZero(2, 155542661);
    PowerByte(2, 155542661, 0, 1, 0, 1, 0, 1, 0, 1, 0, 1, 0, 1, 1, 2, 0, 4, 0, 16);
    PowerByte(2, 155542661, 4, 16, 1, 512, 0, 262144, 1, 94783809, 0, 90340818, 0, 141386885, 0, 72910554, 1,
              47097452, 0, 49941098);
    PowerByte(2, 155542661, 1186, 49941098, 1, 153958900, 0, 17953835, 1, 71142513, 1, 139489638, 0, 44174932, 0,
              80052792, 1, 51707887, 0, 29380117);
    PowerByte(2, 155542661, 303794, 29380117, 0, 122751783, 1, 147144627, 0, 44001231, 0, 78192199, 0, 83860409, 0,
              133990927, 1, 43103467, 0, 155542660);
    PowerBit(2, 155542661, 77771330, 155542660, 0, 1);
  }

  lemma {:induction false} Power155542661By5()
    ensures Power(2, 155542661, 31108532, 108587644)
  {
    hide Power, Rem, Pow;
    PowerZero(2, 155542661);
    PowerByte(2, 155542661, 0, 1, 0, 1, 0, 1, 0, 1, 0, 1, 0, 1, 0, 1, 0, 1, 1, 2);
    PowerByte(2, 155542661, 1, 2, 1, 8, 1, 128, 0, 16384, 1, 70242929, 1, 155346053, 0, 80125736, 1, 69582755, 0,
              155188367);
    PowerByte(2, 155542661, 474, 155188367, 1, 2622018, 0, 148318785, 1, 110023735, 0, 36084068, 1, 120654810, 1,
              145792038, 0, 130607845, 1, 94891365);
    PowerByte(2, 155542661, 121517, 94891365, 1, 102505587, 0, 56166368, 1, 34193480, 1, 69095999, 0, 154712445, 1,
              98151530, 0, 81228751, 0, 108587644);
  }

  lemma {:induction false} Power155542661By7()
    ensures Power(2, 155542661, 22220380, 111129551)
  {
    hide Power, Rem, Pow;
    PowerZero(2, 155542661);
    PowerByte(2, 155542661, 0, 1, 0, 1, 0, 1, 0, 1, 0, 1, 0, 1, 0, 1, 0, 1, 1, 2);
    PowerByte(2, 155542661, 1, 2, 0, 4, 1, 32, 0, 1024, 1, 2097152, 0, 77771329, 0, 116656998, 1, 58328508, 1,
              92353660);
    PowerByte(2, 155542661, 339, 92353660, 0, 56395873, 0, 279938, 0, 127325361, 0, 137050745, 1, 121575076, 1,
              73107090, 1, 97008159, 0, 98501122);
    PowerByte(2, 155542661, 86798, 98501122, 0, 129954006, 1, 70172682, 0, 117865755, 1, 76205212, 1, 27640797, 1,
              13953551, 0, 126346885, 0, 111129551);
  }

  lemma {:induction false} Power155542661By13()
    ensures Power(2, 155542661, 11964820, 102594472)
  {
    hide Power, Rem, Pow;
    PowerZero(2, 155542661);
    PowerByte(2, 155542661, 0, 1, 1, 2, 0, 4, 1, 32, 1, 2048, 0, 4194304, 1, 155542649, 1, 288, 0, 82944);
    PowerByte(2, 155542661, 182, 82944, 1, 71660104, 0, 13201249, 0, 22465042, 1, 77973312, 0, 5463495, 0, 52170498,
              0, 96742080, 1, 109812179);
    PowerByte(2, 155542661, 46737, 109812179, 1, 147915073, 0, 144063999, 0, 115347788, 1, 103488039, 0, 16650305, 1,
              56379435, 0, 112743493, 0, 102594472);
  }

  lemma {:induction false} Power155542661By29()
    ensures Power(2, 155542661, 5363540, 131130465)
  {
    hide Power, Rem, Pow;
    PowerZero(2, 155542661);
    PowerByte(2, 155542661, 0, 1, 0, 1, 1, 2, 0, 4, 1, 32, 0, 1024, 0, 1048576, 0, 136099828, 1, 53467790);
    PowerByte(2, 155542661, 81, 53467790, 1, 127289795, 1, 65186416, 0, 119407344, 1, 32398889, 0, 116914788, 1,
              138584324, 1, 69485508, 1, 147582085);
    PowerByte(2, 155542661, 20951, 147582085, 0, 45935139, 1, 13679986, 0, 86664741, 1, 92061300, 0, 95730042, 1,
              121907286, 0, 150948413, 0, 131130465);
  }

  lemma {:induction false} Power155542661By421()
    ensures Power(2, 155542661, 369460, 115351122)
  {
    hide Power, Rem, Pow;
    PowerZero(2, 155542661);
    PowerByte(2, 155542661, 0, 1, 0, 1, 0, 1, 0, 1, 0, 1, 0, 1, 1, 2, 0, 4, 1, 32);
    PowerByte(2, 155542661, 5, 32, 1, 2048, 0, 4194304, 1, 155542649, 0, 144, 0, 20736, 0, 118896374, 1, 141897703, 1,
              5038884);
    PowerByte(2, 155542661, 1443, 5038884, 0, 34611799, 0, 120577925, 1, 68554351, 1, 29661431, 0, 24816292, 1,
              94341862, 0, 60532968, 0, 115351122);
  }

  lemma {:induction false} Factors155542661()
    ensures Only(155542660, [2, 5, 7, 13, 29, 421])
  {
    hide IsPrime, Divides, Only;
    SmallPrimes();
    var fs: seq<nat> := [2, 5, 7, 13, 29, 421];
    OnlyOne(fs); OnlyTimes(421, 1, fs); OnlyTimes(29, 421, fs); OnlyTimes(13, 12209, fs); OnlyTimes(7, 158717, fs);
    OnlyTimes(7, 1111019, fs); OnlyTimes(5, 7777133, fs); OnlyTimes(2, 38885665, fs); OnlyTimes(2, 77771330, fs);
  }

  lemma {:induction false} Witnesses155542661A()
    ensures Witness(2, 155542661, 2) && Witness(2, 155542661, 5) && Witness(2, 155542661, 7)
  {
    hide IsPrime, Divides, Rem, Pow, Power, Witness;
    SmallPrimes();
    Power155542661By2();
    Witnessed(2, 155542661, 2, 77771330, 155542660);
    Power155542661By5();
    Witnessed(2, 155542661, 5, 31108532, 108587644);
    Power155542661By7();
    Witnessed(2, 155542661, 7, 22220380, 111129551);
  }

  lemma {:induction false} Witnesses155542661B()
    ensures Witness(2, 155542661, 13) && Witness(2, 155542661, 29) && Witness(2, 155542661, 421)
  {
    hide IsPrime, Divides, Rem, Pow, Power, Witness;
    SmallPrimes();
    Power155542661By13();
    Witnessed(2, 155542661, 13, 11964820, 102594472);
    Power155542661By29();
    Witnessed(2, 155542661, 29, 5363540, 131130465);
    Power155542661By421();
    Witnessed(2, 155542661, 421, 369460, 115351122);
  }

  lemma {:induction false} Prime155542661()
    ensures Certificate(2, 155542661, [2, 5, 7, 13, 29, 421]) && IsPrime(155542661)
  {
    hide IsPrime, Divides, Only, Rem, Pow, Power, Witness;
    Power155542661By2();
    Factors155542661();
    Witnesses155542661A();
    Witnesses155542661B();
    Certified(2, 155542661, [2, 5, 7, 13, 29, 421]);
  }

  lemma {:induction false} Power268435459By2()
    ensures Power(2, 268435459, 134217729, 268435458) && Power(2, 268435459, 268435458, 1)
  {
    hide Power, Rem, Pow;
    PowerZero(2, 268435459);
    PowerByte(2, 268435459, 0, 1, 0, 1, 0, 1, 0, 1, 0, 1, 1, 2, 0, 4, 0, 16, 0, 256);
    PowerByte(2, 268435459, 8, 256, 0, 65536, 0, 268435411, 0, 2304, 0, 5308416, 0, 268120531, 0, 126960813, 0,
              162108381, 0, 128985577);
    PowerByte(2, 268435459, 2048, 128985577, 0, 170347842, 0, 102252979, 0, 259350792, 0, 155760421, 0, 28090838, 0,
              156782172, 0, 249328257, 0, 59126772);
    PowerByte(2, 268435459, 524288, 59126772, 0, 61273386, 0, 113323149, 0, 130862245, 0, 86446309, 0, 65605382, 0,
              183483119, 0, 139794027, 1, 268435458);
    PowerBit(2, 268435459, 134217729, 268435458, 0, 1);
  }

  lemma {:induction false} Power268435459By3()
    ensures Power(2, 268435459, 89478486, 134209537)
  {
    hide Power, Rem, Pow;
    PowerZero(2, 268435459);
    PowerByte(2, 268435459, 0, 1, 0, 1, 0, 1, 0, 1, 0, 1, 0, 1, 1, 2, 0, 4, 1, 32);
    PowerByte(2, 268435459, 5, 32, 0, 1024, 1, 2097152, 0, 268386307, 1, 268435405, 0, 2916, 1, 17006112, 0, 45232747,
              1, 45752836);
    PowerByte(2, 268435459, 1365, 45752836, 0, 15734408, 1, 27451560, 0, 155577294, 1, 71340676, 0, 41347711, 1,
              226082661, 0, 210075038, 1, 215209502);
    PowerByte(2, 268435459, 349525, 215209502, 0, 162531845, 1, 257367919, 0, 120484392, 1, 255347775, 0, 148273251,
              1, 251115833, 1, 134209538, 0, 134209537);
  }

  lemma {:induction false} Power268435459By19()
    ensures Power(2, 268435459, 14128182, 252068706)
  {
    hide Power, Rem, Pow;
    PowerZero(2, 268435459);
    PowerByte(2, 268435459, 0, 1, 1, 2, 1, 8, 0, 64, 1, 8192, 0, 67108864, 1, 167772163, 1, 41943043, 1, 195559439);
    PowerByte(2, 268435459, 215, 195559439, 1, 141338954, 0, 152315821, 0, 62511322, 1, 139752243, 0, 4999516, 1,
              121809860, 0, 40708543, 0, 240788185);
    PowerByte(2, 268435459, 55188, 240788185, 0, 179515822, 0, 92312388, 1, 101971083, 1, 110896432, 0, 263567832, 1,
              136774070, 1, 33658359, 0, 252068706);
  }

  lemma {:induction false} Power268435459By87211()
    ensures Power(2, 268435459, 3078, 34588180)
  {
    hide Power, Rem, Pow;
    PowerZero(2, 268435459);
    PowerByte(2, 268435459, 0, 1, 0, 1, 0, 1, 0, 1, 0, 1, 1, 2, 1, 8, 0, 64, 0, 4096);
    PowerByte(2, 268435459, 12, 4096, 0, 16777216, 0, 265289731, 0, 268324867, 0, 150994809, 0, 47204604, 1,
              161838631, 1, 45546448, 0, 34588180);
  }

  lemma {:induction false} Factors268435459()
    ensures Only(268435458, [2, 3, 19, 87211])
  {
    hide IsPrime, Divides, Only;
    SmallPrimes();
    Prime87211();
    var fs: seq<nat> := [2, 3, 19, 87211];
    OnlyOne(fs); OnlyTimes(87211, 1, fs); OnlyTimes(19, 87211, fs); OnlyTimes(3, 1657009, fs);
    OnlyTimes(3, 4971027, fs); OnlyTimes(3, 14913081, fs); OnlyTimes(3, 44739243, fs); OnlyTimes(2, 134217729, fs);
  }

  lemma {:induction false} Witnesses268435459()
    ensures Witness(2, 268435459, 2) && Witness(2, 268435459, 3) && Witness(2, 268435459, 19)
    ensures Witness(2, 268435459, 87211)
  {
    hide IsPrime, Divides, Rem, Pow, Power, Witness;
    SmallPrimes();
    Prime87211();
    Power268435459By2();
    Witnessed(2, 268435459, 2, 134217729, 268435458);
    Power268435459By3();
    Witnessed(2, 268435459, 3, 89478486, 134209537);
    Power268435459By19();
    Witnessed(2, 268435459, 19, 14128182, 252068706);
    Power268435459By87211();
    Witnessed(2, 268435459, 87211, 3078, 34588180);
  }

  lemma {:induction false} Prime268435459()
    ensures Certificate(2, 268435459, [2, 3, 19, 87211]) && IsPrime(268435459)
  {
    hide IsPrime, Divides, Only, Rem, Pow, Power, Witness;
    Power268435459By2();
    Factors268435459();
    Witnesses268435459();
    Certified(2, 268435459, [2, 3, 19, 87211]);
  }

  lemma {:induction false} Power2462081249By2()
    ensures Power(3, 2462081249, 1231040624, 2462081248) && Power(3, 2462081249, 2462081248, 1)
  {
    hide Power, Rem, Pow;
    PowerZero(3, 2462081249);
    PowerByte(3, 2462081249, 0, 1, 0, 1, 1, 3, 0, 9, 0, 81, 1, 19683, 0, 387420489, 0, 2230674123, 1, 753425898);
    PowerByte(3, 2462081249, 73, 753425898, 0, 214351114, 1, 47670318, 1, 242326071, 0, 1691235063, 0, 701032439, 0,
              216807339, 0, 2255315163, 0, 295161154);
    PowerByte(3, 2462081249, 18784, 295161154, 0, 1975871456, 0, 1435769161, 1, 807949459, 1, 851143613, 0,
              1735103600, 0, 290577822, 0, 1942864281, 0, 1351677047);
    PowerByte(3, 2462081249, 4808752, 1351677047, 0, 218389106, 1, 381564214, 1, 372082355, 1, 1500699810, 0,
              503106241, 0, 1956080741, 0, 2134212466, 0, 2462081248);
    PowerBit(3, 2462081249, 1231040624, 2462081248, 0, 1);
  }

  lemma {:induction false} Power2462081249By11()
    ensures Power(3, 2462081249, 223825568, 1420577708)
  {
    hide Power, Rem, Pow;
    PowerZero(3, 2462081249);
    PowerByte(3, 2462081249, 0, 1, 0, 1, 0, 1, 0, 1, 0, 1, 1, 3, 1, 27, 0, 729, 1, 1594323);
    PowerByte(3, 2462081249, 13, 1594323, 0, 997979361, 1, 363360782, 0, 949677316, 1, 43124032, 0, 768211103, 1,
              1556670752, 1, 314308223, 1, 1835695290);
    PowerByte(3, 2462081249, 3415, 1835695290, 0, 1636404284, 1, 471436613, 0, 1948356933, 0, 2365371242, 1,
              162472640, 1, 1040973488, 1, 2415354975, 0, 575284864);
    PowerByte(3, 2462081249, 874318, 575284864, 1, 1499192638, 0, 297726540, 1, 428528565, 0, 535076450, 0,
              1106926498, 0, 1610975563, 0, 1220451705, 0, 1420577708);
  }

  lemma {:induction false} Power2462081249By6994549()
    ensures Power(3, 2462081249, 352, 977030227)
  {
    hide Power, Rem, Pow;
    PowerZero(3, 2462081249);
    PowerByte(3, 2462081249, 0, 1, 0, 1, 0, 1, 0, 1, 0, 1, 0, 1, 0, 1, 0, 1, 1, 3);
    PowerByte(3, 2462081249, 1, 3, 0, 9, 1, 243, 1, 177147, 0, 1836084621, 0, 841976947, 0, 1874796920, 0, 677203647,
              0, 977030227);
  }

  lemma {:induction false} Factors2462081249()
    ensures Only(2462081248, [2, 11, 6994549])
  {
    hide IsPrime, Divides, Only;
    SmallPrimes();
    Prime6994549();
    var fs: seq<nat> := [2, 11, 6994549];
    OnlyOne(fs); OnlyTimes(6994549, 1, fs); OnlyTimes(11, 6994549, fs); OnlyTimes(2, 76940039, fs);
    OnlyTimes(2, 153880078, fs); OnlyTimes(2, 307760156, fs); OnlyTimes(2, 615520312, fs);
    OnlyTimes(2, 1231040624, fs);
  }

  lemma {:induction false} Witnesses2462081249()
    ensures Witness(3, 2462081249, 2) && Witness(3, 2462081249, 11) && Witness(3, 2462081249, 6994549)
  {
    hide IsPrime, Divides, Rem, Pow, Power, Witness;
    SmallPrimes();
    Prime6994549();
    Power2462081249By2();
    Witnessed(3, 2462081249, 2, 1231040624, 2462081248);
    Power2462081249By11();
    Witnessed(3, 2462081249, 11, 223825568, 1420577708);
    Power2462081249By6994549();
    Witnessed(3, 2462081249, 6994549, 352, 977030227);
  }

  lemma {:induction false} Prime2462081249()
    ensures Certificate(3, 2462081249, [2, 11, 6994549]) && IsPrime(2462081249)
  {
    hide IsPrime, Divides, Only, Rem, Pow, Power, Witness;
    Power2462081249By2();
    Factors2462081249();
    Witnesses2462081249();
    Certified(3, 2462081249, [2, 11, 6994549]);
  }

  lemma {:induction false} Power4294967311By2()
    ensures Power(3, 4294967311, 2147483655, 4294967310) && Power(3, 4294967311, 4294967310, 1)
  {
    hide Power, Rem, Pow;
    PowerZero(3, 4294967311);
    PowerByte(3, 4294967311, 0, 1, 1, 3, 0, 9, 0, 81, 0, 6561, 0, 43046721, 0, 3787161312, 0, 2960817548, 0,
              1176516725);
    PowerByte(3, 4294967311, 128, 1176516725, 0, 93247894, 0, 4119348425, 0, 363315125, 0, 1144738664, 0, 3159559037,
              0, 3984249440, 0, 132383238, 0, 3943573603);
    PowerByte(3, 4294967311, 32768, 3943573603, 0, 2379622170, 0, 1856824743, 0, 481598255, 0, 2950815293, 0,
              3113557537, 0, 3857766064, 0, 67588542, 0, 2173327255);
    PowerByte(3, 4294967311, 8388608, 2173327255, 0, 3817161173, 0, 1562112570, 0, 628487581, 0, 2095987730, 0,
              2634914581, 1, 2960733660, 1, 4254106977, 1, 4294967310);
    PowerBit(3, 4294967311, 2147483655, 4294967310, 0, 1);
  }

  lemma {:induction false} Power4294967311By3()
    ensures Power(3, 4294967311, 1431655770, 2086193154)
  {
    hide Power, Rem, Pow;
    PowerZero(3, 4294967311);
    PowerByte(3, 4294967311, 0, 1, 0, 1, 1, 3, 0, 9, 1, 243, 0, 59049, 1, 1870418581, 0, 2025330451, 1, 4135563353);
    PowerByte(3, 4294967311, 85, 4135563353, 0, 2508700846, 1, 3915654013, 0, 3504594753, 1, 4188938322, 0, 852342645,
              1, 1423853252, 0, 3380113069, 1, 4111872537);
    PowerByte(3, 4294967311, 21845, 4111872537, 0, 3229968403, 1, 4142869590, 0, 594127823, 1, 451127629, 0,
              673660018, 1, 798758848, 0, 4016292260, 1, 1415602151);
    PowerByte(3, 4294967311, 5592405, 1415602151, 0, 134640199, 1, 4021536364, 0, 2519842127, 1, 1264487963, 1,
              2409208392, 0, 2127053489, 1, 2086193155, 0, 2086193154);
  }

  lemma {:induction false} Power4294967311By5()
    ensures Power(3, 4294967311, 858993462, 239247313)
  {
    hide Power, Rem, Pow;
    PowerZero(3, 4294967311);
    PowerByte(3, 4294967311, 0, 1, 0, 1, 0, 1, 1, 3, 1, 27, 0, 729, 0, 531441, 1, 1180049176, 1, 2987653642);
    PowerByte(3, 4294967311, 51, 2987653642, 0, 3080109521, 0, 348479229, 1, 1242287779, 1, 715059020, 0, 3339646144,
              0, 490912713, 1, 531193381, 1, 2150959545);
    PowerByte(3, 4294967311, 13107, 2150959545, 0, 1138512195, 0, 3374286204, 1, 779427999, 1, 1897320785, 0,
              968103296, 0, 2058677312, 1, 3847737827, 1, 961729736);
    PowerByte(3, 4294967311, 3355443, 961729736, 0, 1349648637, 0, 2250585946, 1, 1891972257, 1, 73645023, 0,
              3476587882, 1, 3012920034, 1, 3639993378, 0, 239247313);
  }

  lemma {:induction false} Power4294967311By131()
    ensures Power(3, 4294967311, 32786010, 1859000016)
  {
    hide Power, Rem, Pow;
    PowerZero(3, 4294967311);
    PowerByte(3, 4294967311, 0, 1, 0, 1, 0, 1, 0, 1, 0, 1, 0, 1, 0, 1, 0, 1, 1, 3);
    PowerByte(3, 4294967311, 1, 3, 1, 27, 1, 2187, 1, 14348907, 1, 1262387104, 0, 2237854088, 1, 679866147, 0,
              3918033621, 0, 1950446494);
    PowerByte(3, 4294967311, 500, 1950446494, 0, 42508036, 1, 871434080, 0, 2229375486, 0, 3642804383, 0, 2291656374,
              1, 1076887065, 1, 2280747379, 0, 3690245490);
    PowerByte(3, 4294967311, 128070, 3690245490, 0, 268904517, 1, 1630182478, 0, 2614321356, 1, 2321729022, 1,
              4034394164, 0, 4106967900, 1, 133628779, 0, 1859000016);
  }

  lemma {:induction false} Power4294967311By364289()
    ensures Power(3, 4294967311, 11790, 1338913740)
  {
    hide Power, Rem, Pow;
    PowerZero(3, 4294967311);
    PowerByte(3, 4294967311, 0, 1, 0, 1, 0, 1, 1, 3, 0, 9, 1, 243, 1, 177147, 1, 3948865296, 0, 843008713);
    PowerByte(3, 4294967311, 46, 843008713, 0, 3570863356, 0, 3516356701, 0, 675745296, 0, 1855424333, 1, 3407953815,
              1, 1998743639, 1, 2349539339, 0, 1338913740);
  }

  lemma {:induction false} Factors4294967311()
    ensures Only(4294967310, [2, 3, 5, 131, 364289])
  {
    hide IsPrime, Divides, Only;
    SmallPrimes();
    Prime364289();
    var fs: seq<nat> := [2, 3, 5, 131, 364289];
    OnlyOne(fs); OnlyTimes(364289, 1, fs); OnlyTimes(131, 364289, fs); OnlyTimes(5, 47721859, fs);
    OnlyTimes(3, 238609295, fs); OnlyTimes(3, 715827885, fs); OnlyTimes(2, 2147483655, fs);
  }

  lemma {:induction false} Witnesses4294967311A()
    ensures Witness(3, 4294967311, 2) && Witness(3, 4294967311, 3) && Witness(3, 4294967311, 5)
  {
    hide IsPrime, Divides, Rem, Pow, Power, Witness;
    SmallPrimes();
    Power4294967311By2();
    Witnessed(3, 4294967311, 2, 2147483655, 4294967310);
    Power4294967311By3();
    Witnessed(3, 4294967311, 3, 1431655770, 2086193154);
    Power4294967311By5();
    Witnessed(3, 4294967311, 5, 858993462, 239247313);
  }

  lemma {:induction false} Witnesses4294967311B()
    ensures Witness(3, 4294967311, 131) && Witness(3, 4294967311, 364289)
  {
    hide IsPrime, Divides, Rem, Pow, Power, Witness;
    SmallPrimes();
    Prime364289();
    Power4294967311By131();
    Witnessed(3, 4294967311, 131, 32786010, 1859000016);
    Power4294967311By364289();
    Witnessed(3, 4294967311, 364289, 11790, 1338913740);
  }

  lemma {:induction false} Prime4294967311()
    ensures Certificate(3, 4294967311, [2, 3, 5, 131, 364289]) && IsPrime(4294967311)
  {
    hide IsPrime, Divides, Only, Rem, Pow, Power, Witness;
    Power4294967311By2();
    Factors4294967311();
    Witnesses4294967311A();
    Witnesses4294967311B();
    Certified(3, 4294967311, [2, 3, 5, 131, 364289]);
  }

  lemma {:induction false} Power8589934609By2()
    ensures Power(19, 8589934609, 4294967304, 8589934608) && Power(19, 8589934609, 8589934608, 1)
  {
    hide Power, Rem, Pow;
    PowerZero(19, 8589934609);
    PowerByte(19, 8589934609, 0, 1, 0, 1, 0, 1, 0, 1, 0, 1, 0, 1, 0, 1, 0, 1, 1, 19);
    PowerByte(19, 8589934609, 1, 19, 0, 361, 0, 130321, 0, 8393628432, 0, 2025067183, 0, 1941301803, 0, 7993466183, 0,
              4473983768, 0, 2103971039);
    PowerByte(19, 8589934609, 256, 2103971039, 0, 833097732, 0, 1013021221, 0, 2839784250, 0, 8314815660, 0,
              3953361267, 0, 138906913, 0, 7043592537, 0, 2951991581);
    PowerByte(19, 8589934609, 65536, 2951991581, 0, 1240251517, 0, 2781639300, 0, 5584700832, 0, 2252057823, 0,
              1094774737, 0, 1573294465, 0, 8527246676, 0, 2119279515);
    PowerByte(19, 8589934609, 16777216, 2119279515, 0, 6221646784, 0, 1896118913, 0, 1217206565, 0, 3597994533, 1,
              5164234399, 0, 7831169647, 0, 6518028319, 0, 8589934608);
    PowerBit(19, 8589934609, 4294967304, 8589934608, 0, 1);
  }

  lemma {:induction false} Power8589934609By3()
    ensures Power(19, 8589934609, 2863311536, 1517543633)
  {
    hide Power, Rem, Pow;
    PowerZero(19, 8589934609);
    PowerByte(19, 8589934609, 0, 1, 1, 19, 0, 361, 1, 2476099, 0, 6442881584, 1, 4167905284, 0, 7168181704, 1,
              5712884273, 0, 4165368528);
    PowerByte(19, 8589934609, 170, 4165368528, 1, 6746375570, 0, 4696494940, 1, 3725695807, 0, 3676160201, 1,
              6054824274, 0, 8541940868, 1, 1366839927, 0, 7981686564);
    PowerByte(19, 8589934609, 43690, 7981686564, 1, 972247403, 0, 3783636439, 1, 7867906376, 0, 5741316579, 1,
              2161694345, 0, 6773808313, 1, 8062411178, 0, 5551833449);
    PowerByte(19, 8589934609, 11184810, 5551833449, 1, 3129591754, 0, 1992648586, 1, 902709694, 1, 4970231650, 0,
              4355018371, 0, 5171968698, 0, 1517543634, 0, 1517543633);
  }

  lemma {:induction false} Power8589934609By59()
    ensures Power(19, 8589934609, 145592112, 7552289703)
  {
    hide Power, Rem, Pow;
    PowerZero(19, 8589934609);
    PowerByte(19, 8589934609, 0, 1, 0, 1, 0, 1, 0, 1, 0, 1, 1, 19, 0, 361, 0, 130321, 0, 8393628432);
    PowerByte(19, 8589934609, 8, 8393628432, 1, 4116538041, 0, 5025247554, 1, 4123782850, 0, 72975086, 1, 4036072617,
              1, 4693893660, 0, 3977536982, 1, 5476620634);
    PowerByte(19, 8589934609, 2221, 5476620634, 1, 5702260879, 0, 5447252285, 0, 7585455563, 0, 2273671872, 1,
              4133909606, 1, 5377052416, 1, 4097982348, 1, 5716309857);
    PowerByte(19, 8589934609, 568719, 5716309857, 0, 892621362, 0, 7863734696, 1, 281361462, 1, 1320696686, 0,
              7351253135, 0, 2043511715, 0, 1076160708, 0, 7552289703);
  }

  lemma {:induction false} Power8589934609By3033169()
    ensures Power(19, 8589934609, 2832, 696883637)
  {
    hide Power, Rem, Pow;
    PowerZero(19, 8589934609);
    PowerByte(19, 8589934609, 0, 1, 0, 1, 0, 1, 0, 1, 0, 1, 1, 19, 0, 361, 1, 2476099, 1, 2155665570);
    PowerByte(19, 8589934609, 11, 2155665570, 0, 1880788915, 0, 2143277835, 0, 5981476858, 1, 3343336435, 0,
              6010711375, 0, 1748334457, 0, 6833182532, 0, 696883637);
  }

  lemma {:induction false} Factors8589934609()
    ensures Only(8589934608, [2, 3, 59, 3033169])
  {
    hide IsPrime, Divides, Only;
    SmallPrimes();
    Prime3033169();
    var fs: seq<nat> := [2, 3, 59, 3033169];
    OnlyOne(fs); OnlyTimes(3033169, 1, fs); OnlyTimes(59, 3033169, fs); OnlyTimes(3, 178956971, fs);
    OnlyTimes(2, 536870913, fs); OnlyTimes(2, 1073741826, fs); OnlyTimes(2, 2147483652, fs);
    OnlyTimes(2, 4294967304, fs);
  }

  lemma {:induction false} Witnesses8589934609()
    ensures Witness(19, 8589934609, 2) && Witness(19, 8589934609, 3) && Witness(19, 8589934609, 59)
    ensures Witness(19, 8589934609, 3033169)
  {
    hide IsPrime, Divides, Rem, Pow, Power, Witness;
    SmallPrimes();
    Prime3033169();
    Power8589934609By2();
    Witnessed(19, 8589934609, 2, 4294967304, 8589934608);
    Power8589934609By3();
    Witnessed(19, 8589934609, 3, 2863311536, 1517543633);
    Power8589934609By59();
    Witnessed(19, 8589934609, 59, 145592112, 7552289703);
    Power8589934609By3033169();
    Witnessed(19, 8589934609, 3033169, 2832, 696883637);
  }

  lemma {:induction false} Prime8589934609()
    ensures Certificate(19, 8589934609, [2, 3, 59, 3033169]) && IsPrime(8589934609)
  {
    hide IsPrime, Divides, Only, Rem, Pow, Power, Witness;
    Power8589934609By2();
    Factors8589934609();
    Witnesses8589934609();
    Certified(19, 8589934609, [2, 3, 59, 3033169]);
  }

  lemma {:induction false} Power17179869209By2()
    ensures Power(3, 17179869209, 8589934604, 17179869208) && Power(3, 17179869209, 17179869208, 1)
  {
    hide Power, Rem, Pow;
    PowerZero(3, 17179869209);
    PowerByte(3, 17179869209, 0, 1, 0, 1, 0, 1, 0, 1, 0, 1, 0, 1, 0, 1, 1, 3, 0, 9);
    PowerByte(3, 17179869209, 2, 9, 0, 81, 0, 6561, 0, 43046721, 0, 16675838310, 0, 3017352791, 0, 2576171478, 0,
              4882623868, 0, 16413631429);
    PowerByte(3, 17179869209, 512, 16413631429, 0, 6088805091, 0, 15199037215, 0, 6296717866, 0, 214125530, 0,
              4573586446, 0, 4189903514, 0, 14733336146, 0, 9014973401);
    PowerByte(3, 17179869209, 131072, 9014973401, 0, 1551242408, 0, 12814838053, 0, 9650452926, 0, 1599418324, 0,
              14056517411, 0, 8802396607, 0, 9044564413, 0, 807373810);
    PowerByte(3, 17179869209, 33554432, 807373810, 0, 7391586437, 0, 14290119675, 0, 13888321696, 0, 6321890077, 1,
              11021342049, 1, 2121173011, 0, 10307895311, 0, 17179869208);
    PowerBit(3, 17179869209, 8589934604, 17179869208, 0, 1);
  }

  lemma {:induction false} Power17179869209By83()
    ensures Power(3, 17179869209, 206986376, 10781216211)
  {
    hide Power, Rem, Pow;
    PowerZero(3, 17179869209);
    PowerByte(3, 17179869209, 0, 1, 0, 1, 0, 1, 0, 1, 0, 1, 1, 3, 1, 27, 0, 729, 0, 531441);
    PowerByte(3, 17179869209, 12, 531441, 0, 7551629137, 1, 9328563229, 0, 16157962751, 1, 15109238776, 0,
              10045933939, 1, 14464999501, 1, 13801752415, 0, 13307403281);
    PowerByte(3, 17179869209, 3158, 13307403281, 0, 4923086051, 1, 5900575990, 0, 12388920101, 1, 5369186063, 1,
              8964068007, 1, 7257014993, 0, 9458470537, 0, 5079470274);
    PowerByte(3, 17179869209, 808540, 5079470274, 1, 8959256388, 0, 320212192, 0, 14734656325, 0, 10297548824, 1,
              15102613056, 0, 5303673305, 0, 11963498126, 0, 10781216211);
  }

  lemma {:induction false} Power17179869209By1277()
    ensures Power(3, 17179869209, 13453304, 15051818278)
  {
    hide Power, Rem, Pow;
    PowerZero(3, 17179869209);
    PowerByte(3, 17179869209, 0, 1, 1, 3, 1, 27, 0, 729, 0, 531441, 1, 5475018202, 1, 15237592225, 0, 3124922947, 1,
              3870273406);
    PowerByte(3, 17179869209, 205, 3870273406, 0, 11733076172, 1, 5006682637, 0, 14003039235, 0, 6539215384, 0,
              8219259615, 1, 16070494341, 1, 6915939136, 1, 14386422892);
    PowerByte(3, 17179869209, 52551, 14386422892, 1, 5511435277, 1, 13927968745, 1, 12111521261, 1, 9567620760, 1,
              12053392071, 0, 2145339655, 0, 15868320709, 0, 15051818278);
  }

  lemma {:induction false} Power17179869209By20261()
    ensures Power(3, 17179869209, 847928, 5502750261)
  {
    hide Power, Rem, Pow;
    PowerZero(3, 17179869209);
    PowerByte(3, 17179869209, 0, 1, 0, 1, 0, 1, 0, 1, 0, 1, 1, 3, 1, 27, 0, 729, 0, 531441);
    PowerByte(3, 17179869209, 12, 531441, 1, 5475018202, 1, 15237592225, 1, 9374768841, 1, 472722236, 0, 5486363437,
              0, 6038240986, 0, 4498379617, 0, 4779571745);
    PowerByte(3, 17179869209, 3312, 4779571745, 0, 5756287654, 0, 2211920404, 1, 1060576783, 1, 11999660373, 1,
              14707641754, 0, 3089119507, 0, 10297531756, 0, 5502750261);
  }

  lemma {:induction false} Factors17179869209()
    ensures Only(17179869208, [2, 83, 1277, 20261])
  {
    hide IsPrime, Divides, Only;
    SmallPrimes();
    Prime20261();
    var fs: seq<nat> := [2, 83, 1277, 20261];
    OnlyOne(fs); OnlyTimes(20261, 1, fs); OnlyTimes(1277, 20261, fs); OnlyTimes(83, 25873297, fs);
    OnlyTimes(2, 2147483651, fs); OnlyTimes(2, 4294967302, fs); OnlyTimes(2, 8589934604, fs);
  }

  lemma {:induction false} Witnesses17179869209()
    ensures Witness(3, 17179869209, 2) && Witness(3, 17179869209, 83) && Witness(3, 17179869209, 1277)
    ensures Witness(3, 17179869209, 20261)
  {
    hide IsPrime, Divides, Rem, Pow, Power, Witness;
    SmallPrimes();
    Prime20261();
    Power17179869209By2();
    Witnessed(3, 17179869209, 2, 8589934604, 17179869208);
    Power17179869209By83();
    Witnessed(3, 17179869209, 83, 206986376, 10781216211);
    Power17179869209By1277();
    Witnessed(3, 17179869209, 1277, 13453304, 15051818278);
    Power17179869209By20261();
    Witnessed(3, 17179869209, 20261, 847928, 5502750261);
  }

  lemma {:induction false} Prime17179869209()
    ensures Certificate(3, 17179869209, [2, 83, 1277, 20261]) && IsPrime(17179869209)
  {
    hide IsPrime, Divides, Only, Rem, Pow, Power, Witness;
    Power17179869209By2();
    Factors17179869209();
    Witnesses17179869209();
    Certified(3, 17179869209, [2, 83, 1277, 20261]);
  }

  lemma {:induction false} Power36650387593By2()
    ensures Power(5, 36650387593, 18325193796, 36650387592) && Power(5, 36650387593, 36650387592, 1)
  {
    hide Power, Rem, Pow;
    PowerZero(5, 36650387593);
    PowerByte(5, 36650387593, 0, 1, 0, 1, 0, 1, 0, 1, 0, 1, 0, 1, 1, 5, 0, 25, 0, 625);
    PowerByte(5, 36650387593, 4, 625, 0, 390625, 1, 29931701265, 0, 33304697330, 0, 8177386222, 0, 23711537206, 1,
              1623648667, 0, 28776306453, 0, 18571303382);
    PowerByte(5, 36650387593, 1092, 18571303382, 0, 22360689392, 1, 6369571862, 0, 12821787973, 0, 35695718160, 0,
              35139488913, 1, 27526773179, 0, 15092077511, 0, 23824119125);
    PowerByte(5, 36650387593, 279620, 23824119125, 0, 16805050710, 1, 21629179509, 0, 6278114051, 0, 8147649235, 0,
              20014494958, 1, 34646807071, 0, 33036969507, 0, 727213325);
    PowerByte(5, 36650387593, 71582788, 727213325, 0, 2264206283, 1, 35970949490, 0, 21615491485, 0, 17988015199, 0,
              5087146887, 1, 4997302093, 0, 10355178384, 0, 36650387592);
    PowerBit(5, 36650387593, 18325193796, 36650387592, 0, 1);
  }

  lemma {:induction false} Power36650387593By3()
    ensures Power(5, 36650387593, 12216795864, 14352535989)
  {
    hide Power, Rem, Pow;
    PowerZero(5, 36650387593);
    PowerByte(5, 36650387593, 0, 1, 0, 1, 0, 1, 0, 1, 0, 1, 0, 1, 0, 1, 1, 5, 0, 25);
    PowerByte(5, 36650387593, 2, 25, 1, 3125, 1, 48828125, 0, 4777315789, 1, 6016549640, 1, 23069610884, 0,
              3000366222, 0, 36259240366, 0, 26442500854);
    PowerByte(5, 36650387593, 728, 26442500854, 0, 1511608549, 0, 17359183268, 1, 17074020543, 0, 19844391181, 1,
              3053556424, 1, 4498958229, 0, 33958815714, 1, 21877113001);
    PowerByte(5, 36650387593, 186413, 21877113001, 1, 11914146994, 0, 3606044398, 0, 1764735752, 0, 25609031887, 0,
              19479591375, 0, 11931271664, 1, 15798680014, 0, 27561145514);
    PowerByte(5, 36650387593, 47721858, 27561145514, 1, 26355384546, 1, 32558279329, 0, 12198006794, 1, 30575353549,
              1, 12217784610, 0, 20635650646, 0, 14352535990, 0, 14352535989);
  }

  lemma {:induction false} Power36650387593By7()
    ensures Power(5, 36650387593, 5235769656, 2731901364)
  {
    hide Power, Rem, Pow;
    PowerZero(5, 36650387593);
    PowerByte(5, 36650387593, 0, 1, 0, 1, 0, 1, 0, 1, 0, 1, 0, 1, 0, 1, 0, 1, 1, 5);
    PowerByte(5, 36650387593, 1, 5, 0, 25, 0, 625, 1, 1953125, 1, 15284779765, 1, 26728779723, 0, 14350544201, 0,
              34763653874, 0, 13734479347);
    PowerByte(5, 36650387593, 312, 13734479347, 0, 3202812227, 0, 23215146798, 0, 7334633646, 1, 12246916815, 0,
              23902321357, 0, 13797283327, 1, 22364897867, 1, 252519758);
    PowerByte(5, 36650387593, 79891, 252519758, 1, 80774419, 0, 4765481701, 0, 22125355406, 0, 14146470711, 0,
              8400520457, 0, 34185603976, 0, 121347985, 1, 33535711762);
    PowerByte(5, 36650387593, 20452225, 33535711762, 0, 35456951511, 0, 21317552143, 1, 20797466431, 1, 18163418082,
              1, 26131795116, 0, 10232504071, 0, 20221405676, 0, 2731901364);
  }

  lemma {:induction false} Power36650387593By13()
    ensures Power(5, 36650387593, 2819260584, 18091925705)
  {
    hide Power, Rem, Pow;
    PowerZero(5, 36650387593);
    PowerByte(5, 36650387593, 0, 1, 1, 5, 0, 25, 1, 3125, 0, 9765625, 1, 15615618195, 0, 5912194412, 0, 181846651, 0,
              25770255621);
    PowerByte(5, 36650387593, 168, 25770255621, 0, 13601277285, 0, 27215256078, 0, 25946647844, 0, 26338015593, 1,
              34821095089, 0, 19317920971, 1, 5758820447, 0, 27988783956);
    PowerByte(5, 36650387593, 43018, 27988783956, 1, 17296955465, 0, 21993309472, 0, 8681271821, 0, 20702786724, 0,
              33972497888, 0, 3869158005, 0, 31959902991, 0, 27725012465);
    PowerByte(5, 36650387593, 11012736, 27725012465, 1, 31961965905, 0, 196190884, 1, 14289718875, 0, 18574234362, 1,
              4211023604, 0, 36603045896, 0, 28423140266, 0, 18091925705);
  }

  lemma {:induction false} Power36650387593By19()
    ensures Power(5, 36650387593, 1928967768, 19063977740)
  {
    hide Power, Rem, Pow;
    PowerZero(5, 36650387593);
    PowerByte(5, 36650387593, 0, 1, 0, 1, 1, 5, 1, 125, 1, 78125, 0, 6103515625, 0, 25370063777, 1, 23245833297, 0,
              10179545776);
    PowerByte(5, 36650387593, 114, 10179545776, 1, 23136460582, 1, 16935595381, 1, 3280644371, 1, 27045480912, 1,
              25868243115, 0, 22943494411, 0, 20303061740, 1, 11606527627);
    PowerByte(5, 36650387593, 29433, 11606527627, 1, 4830846833, 0, 3775777332, 1, 24712790002, 1, 31844814173, 0,
              8921674992, 1, 4264694259, 1, 22739030282, 0, 24817043451);
    PowerByte(5, 36650387593, 7535030, 24817043451, 0, 9313338237, 1, 9064668855, 0, 32247315452, 1, 6012593361, 1,
              21709098477, 0, 26388714660, 0, 13408951709, 0, 19063977740);
  }

  lemma {:induction false} Power36650387593By37()
    ensures Power(5, 36650387593, 990551016, 15084558776)
  {
    hide Power, Rem, Pow;
    PowerZero(5, 36650387593);
    PowerByte(5, 36650387593, 0, 1, 0, 1, 0, 1, 1, 5, 1, 125, 1, 78125, 0, 6103515625, 1, 16899156106, 1,
              31390018530);
    PowerByte(5, 36650387593, 59, 31390018530, 0, 21699056411, 0, 12167657176, 0, 30217044884, 0, 24458333884, 1,
              30421925733, 0, 27517418657, 1, 20441185084, 0, 205166041);
    PowerByte(5, 36650387593, 15114, 205166041, 1, 11438289231, 0, 31154045174, 0, 6736812876, 1, 9088871159, 1,
              13124323947, 0, 36619963216, 1, 2633946605, 1, 28714609038);
    PowerByte(5, 36650387593, 3869339, 28714609038, 1, 20582770475, 1, 689448640, 1, 21484739821, 0, 20763450312, 1,
              32500974462, 0, 22817544714, 0, 16940592345, 0, 15084558776);
  }

  lemma {:induction false} Power36650387593By73()
    ensures Power(5, 36650387593, 502060104, 29569346663)
  {
    hide Power, Rem, Pow;
    PowerZero(5, 36650387593);
    PowerByte(5, 36650387593, 0, 1, 0, 1, 0, 1, 0, 1, 1, 5, 1, 125, 1, 78125, 0, 6103515625, 1, 16899156106);
    PowerByte(5, 36650387593, 29, 16899156106, 1, 31390018530, 1, 35194506869, 1, 18291255687, 0, 11033339474, 1,
              23794179434, 1, 31139561115, 0, 791740066, 0, 8987227718);
    PowerByte(5, 36650387593, 7660, 8987227718, 1, 31530200883, 1, 3320169954, 0, 22123353877, 1, 35930912487, 0,
              34600256151, 1, 23764208535, 0, 22158429582, 0, 22409781337);
    PowerByte(5, 36650387593, 1961172, 22409781337, 0, 30527985029, 1, 1269574420, 0, 32764236010, 0, 21319036829, 1,
              12548515017, 0, 7780681725, 0, 24261797316, 0, 29569346663);
  }

  lemma {:induction false} Power36650387593By109()
    ensures Power(5, 36650387593, 336242088, 9143133451)
  {
    hide Power, Rem, Pow;
    PowerZero(5, 36650387593);
    PowerByte(5, 36650387593, 0, 1, 0, 1, 0, 1, 0, 1, 1, 5, 0, 25, 1, 3125, 0, 9765625, 0, 3123123639);
    PowerByte(5, 36650387593, 20, 3123123639, 0, 23692735836, 0, 28910116688, 0, 30254216194, 0, 657508163, 1,
              754034752, 0, 22677989790, 1, 26830296909, 0, 29003659363);
    PowerByte(5, 36650387593, 5130, 29003659363, 1, 250169253, 0, 13488120093, 1, 26695399084, 0, 27808867180, 0,
              6819416622, 1, 11598282622, 0, 36437517923, 1, 26935044299);
    PowerByte(5, 36650387593, 1313445, 26935044299, 1, 23040109415, 0, 16583156347, 1, 28747053220, 0, 10680165110, 1,
              9455093556, 0, 28307559552, 0, 19876887548, 0, 9143133451);
  }

  lemma {:induction false} Factors36650387593()
    ensures Only(36650387592, [2, 3, 7, 13, 19, 37, 73, 109])
  {
    hide IsPrime, Divides, Only;
    SmallPrimes();
    var fs: seq<nat> := [2, 3, 7, 13, 19, 37, 73, 109];
    OnlyOne(fs); OnlyTimes(109, 1, fs); OnlyTimes(73, 109, fs); OnlyTimes(37, 7957, fs); OnlyTimes(19, 294409, fs);
    OnlyTimes(13, 5593771, fs); OnlyTimes(7, 72719023, fs); OnlyTimes(3, 509033161, fs); OnlyTimes(3, 1527099483, fs);
    OnlyTimes(2, 4581298449, fs); OnlyTimes(2, 9162596898, fs); OnlyTimes(2, 18325193796, fs);
  }

  lemma {:induction false} Witnesses36650387593A()
    ensures Witness(5, 36650387593, 2) && Witness(5, 36650387593, 3) && Witness(5, 36650387593, 7)
    ensures Witness(5, 36650387593, 13)
  {
    hide IsPrime, Divides, Rem, Pow, Power, Witness;
    SmallPrimes();
    Power36650387593By2();
    Witnessed(5, 36650387593, 2, 18325193796, 36650387592);
    Power36650387593By3();
    Witnessed(5, 36650387593, 3, 12216795864, 14352535989);
    Power36650387593By7();
    Witnessed(5, 36650387593, 7, 5235769656, 2731901364);
    Power36650387593By13();
    Witnessed(5, 36650387593, 13, 2819260584, 18091925705);
  }

  lemma {:induction false} Witnesses36650387593B()
    ensures Witness(5, 36650387593, 19) && Witness(5, 36650387593, 37) && Witness(5, 36650387593, 73)
    ensures Witness(5, 36650387593, 109)
  {
    hide IsPrime, Divides, Rem, Pow, Power, Witness;
    SmallPrimes();
    Power36650387593By19();
    Witnessed(5, 36650387593, 19, 1928967768, 19063977740);
    Power36650387593By37();
    Witnessed(5, 36650387593, 37, 990551016, 15084558776);
    Power36650387593By73();
    Witnessed(5, 36650387593, 73, 502060104, 29569346663);
    Power36650387593By109();
    Witnessed(5, 36650387593, 109, 336242088, 9143133451);
  }

  lemma {:induction false} Prime36650387593()
    ensures Certificate(5, 36650387593, [2, 3, 7, 13, 19, 37, 73, 109]) && IsPrime(36650387593)
  {
    hide IsPrime, Divides, Only, Rem, Pow, Power, Witness;
    Power36650387593By2();
    Factors36650387593();
    Witnesses36650387593A();
    Witnesses36650387593B();
    Certified(5, 36650387593, [2, 3, 7, 13, 19, 37, 73, 109]);
  }

  lemma {:induction false} Power68719476767By2()
    ensures Power(5, 68719476767, 34359738383, 68719476766) && Power(5, 68719476767, 68719476766, 1)
  {
    hide Power, Rem, Pow;
    PowerZero(5, 68719476767);
    PowerByte(5, 68719476767, 0, 1, 0, 1, 0, 1, 0, 1, 0, 1, 1, 5, 0, 25, 0, 625, 0, 390625);
    PowerByte(5, 68719476767, 8, 390625, 0, 15148937091, 0, 60358742909, 0, 31704269299, 0, 8376453244, 0,
              47076320743, 0, 4029060213, 0, 43290938107, 0, 10422309694);
    PowerByte(5, 68719476767, 2048, 10422309694, 0, 50838829907, 0, 34987629926, 0, 44942013478, 0, 24081541048, 0,
              44689391142, 0, 43977856490, 0, 31795708326, 0, 59961340188);
    PowerByte(5, 68719476767, 524288, 59961340188, 0, 48076343134, 0, 48231441853, 0, 45461814515, 0, 65992953472, 0,
              42668993589, 0, 28326071292, 0, 25693334734, 0, 48108921982);
    PowerByte(5, 68719476767, 134217728, 48108921982, 0, 63367085969, 0, 68341501692, 0, 45182256538, 0, 45781740793,
              1, 18297097498, 1, 60188779023, 1, 18337461123, 1, 68719476766);
    PowerBit(5, 68719476767, 34359738383, 68719476766, 0, 1);
  }

  lemma {:induction false} Power68719476767By163()
    ensures Power(5, 68719476767, 421591882, 44465786102)
  {
    hide Power, Rem, Pow;
    PowerZero(5, 68719476767);
    PowerByte(5, 68719476767, 0, 1, 0, 1, 0, 1, 0, 1, 1, 5, 1, 125, 0, 15625, 0, 244140625, 1, 47278013389);
    PowerByte(5, 68719476767, 25, 47278013389, 0, 43324564579, 0, 55998473044, 1, 22083189956, 0, 7646211471, 0,
              2245146150, 0, 68019232145, 0, 64288182210, 0, 42419509445);
    PowerByte(5, 68719476767, 6432, 42419509445, 1, 13146312875, 1, 56340894628, 1, 58473913036, 1, 22796717510, 1,
              53699824946, 0, 52450461510, 1, 65859258915, 1, 60478854754);
    PowerByte(5, 68719476767, 1646843, 60478854754, 0, 68147993205, 1, 56942694853, 0, 21495498048, 0, 12723176041, 1,
              29935061273, 0, 41951602431, 1, 1070359269, 0, 44465786102);
  }

  lemma {:induction false} Power68719476767By883()
    ensures Power(5, 68719476767, 77825002, 2788595759)
  {
    hide Power, Rem, Pow;
    PowerZero(5, 68719476767);
    PowerByte(5, 68719476767, 0, 1, 0, 1, 0, 1, 0, 1, 0, 1, 0, 1, 1, 5, 0, 25, 0, 625);
    PowerByte(5, 68719476767, 4, 625, 1, 1953125, 0, 35126043440, 1, 54827341977, 0, 44431597026, 0, 7598780471, 0,
              21842629075, 1, 63878702881, 1, 28213991671);
    PowerByte(5, 68719476767, 1187, 28213991671, 1, 63317676095, 0, 61508333721, 0, 19718213086, 0, 48489727231, 0,
              12208122616, 0, 28643356892, 1, 41633466976, 1, 19867706413);
    PowerByte(5, 68719476767, 304003, 19867706413, 1, 42737799332, 1, 1187299062, 1, 3190134903, 0, 21467471086, 1,
              52226966455, 0, 25613360848, 1, 47376272512, 0, 2788595759);
  }

  lemma {:induction false} Power68719476767By238727()
    ensures Power(5, 68719476767, 287858, 19169137807)
  {
    hide Power, Rem, Pow;
    PowerZero(5, 68719476767);
    PowerByte(5, 68719476767, 0, 1, 0, 1, 0, 1, 0, 1, 0, 1, 0, 1, 1, 5, 0, 25, 0, 625);
    PowerByte(5, 68719476767, 4, 625, 0, 390625, 1, 7025208688, 1, 54419896022, 0, 49219260339, 0, 437537120, 1,
              65001929000, 0, 2979564650, 0, 2955855509);
    PowerByte(5, 68719476767, 1124, 2955855509, 0, 34035344690, 1, 50229098509, 1, 5047930578, 1, 42031452773, 0,
              25633767767, 0, 48614800156, 1, 7577215899, 0, 19169137807);
  }

  lemma {:induction false} Factors68719476767()
    ensures Only(68719476766, [2, 163, 883, 238727])
  {
    hide IsPrime, Divides, Only;
    SmallPrimes();
    Prime238727();
    var fs: seq<nat> := [2, 163, 883, 238727];
    OnlyOne(fs); OnlyTimes(238727, 1, fs); OnlyTimes(883, 238727, fs); OnlyTimes(163, 210795941, fs);
    OnlyTimes(2, 34359738383, fs);
  }

  lemma {:induction false} Witnesses68719476767()
    ensures Witness(5, 68719476767, 2) && Witness(5, 68719476767, 163) && Witness(5, 68719476767, 883)
    ensures Witness(5, 68719476767, 238727)
  {
    hide IsPrime, Divides, Rem, Pow, Power, Witness;
    SmallPrimes();
    Prime238727();
    Power68719476767By2();
    Witnessed(5, 68719476767, 2, 34359738383, 68719476766);
    Power68719476767By163();
    Witnessed(5, 68719476767, 163, 421591882, 44465786102);
    Power68719476767By883();
    Witnessed(5, 68719476767, 883, 77825002, 2788595759);
    Power68719476767By238727();
    Witnessed(5, 68719476767, 238727, 287858, 19169137807);
  }

  lemma {:induction false} Prime68719476767()
    ensures Certificate(5, 68719476767, [2, 163, 883, 238727]) && IsPrime(68719476767)
  {
    hide IsPrime, Divides, Only, Rem, Pow, Power, Witness;
    Power68719476767By2();
    Factors68719476767();
    Witnesses68719476767();
    Certified(5, 68719476767, [2, 163, 883, 238727]);
  }

  lemma {:induction false} Power1099511627791By2()
    ensures Power(3, 1099511627791, 549755813895, 1099511627790) && Power(3, 1099511627791, 1099511627790, 1)
  {
    hide Power, Rem, Pow;
    PowerZero(3, 1099511627791);
    PowerByte(3, 1099511627791, 0, 1, 1, 3, 0, 9, 0, 81, 0, 6561, 0, 43046721, 0, 343096024006, 0, 288693689762, 0,
              737006663542);
    PowerByte(3, 1099511627791, 128, 737006663542, 0, 330374931681, 0, 983005856170, 0, 602238651398, 0, 893959119711,
              0, 922128827002, 0, 34493407943, 0, 956133971447, 0, 362699483551);
    PowerByte(3, 1099511627791, 32768, 362699483551, 0, 99047930252, 0, 851451225546, 0, 133771384091, 0, 31044985080,
              0, 875757935873, 0, 265759972823, 0, 420966980676, 0, 373456463248);
    PowerByte(3, 1099511627791, 8388608, 373456463248, 0, 1045772184837, 0, 658002330428, 0, 732897230199, 0,
              807360348204, 0, 168314619992, 0, 577960002, 0, 633830795249, 0, 422848446127);
    PowerByte(3, 1099511627791, 2147483648, 422848446127, 0, 42628287856, 0, 1062602924288, 0, 56404010024, 0,
              570347670233, 0, 603354657365, 1, 945534596123, 1, 865689237471, 1, 1099511627790);
    PowerBit(3, 1099511627791, 549755813895, 1099511627790, 0, 1);
  }

  lemma {:induction false} Power1099511627791By3()
    ensures Power(3, 1099511627791, 366503875930, 199022228415)
  {
    hide Power, Rem, Pow;
    PowerZero(3, 1099511627791);
    PowerByte(3, 1099511627791, 0, 1, 0, 1, 1, 3, 0, 9, 1, 243, 0, 59049, 1, 10460353203, 0, 975379481119, 1,
              1063241944520);
    PowerByte(3, 1099511627791, 85, 1063241944520, 0, 685694514685, 1, 1010311646947, 0, 749118564671, 1,
              785967729184, 0, 1023271999765, 1, 596606948701, 0, 745194748215, 1, 440631564979);
    PowerByte(3, 1099511627791, 21845, 440631564979, 0, 958524270565, 1, 872465277967, 0, 306067748742, 1,
              439886561061, 0, 282954385057, 1, 1041580737763, 0, 933522569082, 1, 836120539644);
    PowerByte(3, 1099511627791, 5592405, 836120539644, 0, 636982341360, 1, 1059873816894, 0, 632639248554, 1,
              136503607844, 0, 782511201939, 1, 17177584992, 0, 815461120575, 1, 193384915161);
    PowerByte(3, 1099511627791, 1431655765, 193384915161, 0, 1046283845792, 1, 995534785542, 0, 884402222045, 1,
              346600639392, 1, 382461489052, 0, 432844618736, 1, 199022228416, 0, 199022228415);
  }

  lemma {:induction false} Power1099511627791By5()
    ensures Power(3, 1099511627791, 219902325558, 285339325809)
  {
    hide Power, Rem, Pow;
    PowerZero(3, 1099511627791);
    PowerByte(3, 1099511627791, 0, 1, 0, 1, 0, 1, 1, 3, 1, 27, 0, 729, 0, 531441, 1, 847288609443, 1, 921305634417);
    PowerByte(3, 1099511627791, 51, 921305634417, 0, 545325979605, 0, 593749057401, 1, 220054156900, 1, 175142869396,
              0, 289712896985, 0, 919577208429, 1, 680404232679, 1, 300535940728);
    PowerByte(3, 1099511627791, 13107, 300535940728, 0, 434494601098, 0, 573938911266, 1, 643249636911, 1,
              990003094472, 0, 940069315727, 0, 1048485984216, 1, 1013543724339, 1, 103434021615);
    PowerByte(3, 1099511627791, 3355443, 103434021615, 0, 923335848395, 0, 867850620982, 1, 751558137369, 1,
              736087549303, 0, 335224626340, 0, 805718831843, 1, 694568176637, 1, 678319121733);
    PowerByte(3, 1099511627791, 858993459, 678319121733, 0, 262680826807, 0, 188533866670, 1, 240273526060, 1,
              293958814507, 0, 380848017032, 1, 936011436163, 1, 830751034116, 0, 285339325809);
  }

  lemma {:induction false} Power1099511627791By36650387593()
    ensures Power(3, 1099511627791, 30, 282457697732)
  {
    hide Power, Rem, Pow;
    PowerZero(3, 1099511627791);
    PowerByte(3, 1099511627791, 0, 1, 0, 1, 0, 1, 0, 1, 1, 3, 1, 27, 1, 2187, 1, 14348907, 0, 282457697732);
  }

  lemma {:induction false} Factors1099511627791()
    ensures Only(1099511627790, [2, 3, 5, 36650387593])
  {
    hide IsPrime, Divides, Only;
    SmallPrimes();
    Prime36650387593();
    var fs: seq<nat> := [2, 3, 5, 36650387593];
    OnlyOne(fs); OnlyTimes(36650387593, 1, fs); OnlyTimes(5, 36650387593, fs); OnlyTimes(3, 183251937965, fs);
    OnlyTimes(2, 549755813895, fs);
  }

  lemma {:induction false} Witnesses1099511627791()
    ensures Witness(3, 1099511627791, 2) && Witness(3, 1099511627791, 3) && Witness(3, 1099511627791, 5)
    ensures Witness(3, 1099511627791, 36650387593)
  {
    hide IsPrime, Divides, Rem, Pow, Power, Witness;
    SmallPrimes();
    Prime36650387593();
    Power1099511627791By2();
    Witnessed(3, 1099511627791, 2, 549755813895, 1099511627790);
    Power1099511627791By3();
    Witnessed(3, 1099511627791, 3, 366503875930, 199022228415);
    Power1099511627791By5();
    Witnessed(3, 1099511627791, 5, 219902325558, 285339325809);
    Power1099511627791By36650387593();
    Witnessed(3, 1099511627791, 36650387593, 30, 282457697732);
  }

  lemma {:induction false} Prime1099511627791()
    ensures Certificate(3, 1099511627791, [2, 3, 5, 36650387593]) && IsPrime(1099511627791)
  {
    hide IsPrime, Divides, Only, Rem, Pow, Power, Witness;
    Power1099511627791By2();
    Factors1099511627791();
    Witnesses1099511627791();
    Certified(3, 1099511627791, [2, 3, 5, 36650387593]);
  }

  lemma {:induction false} Power17592186044423By2()
    ensures Power(5, 17592186044423, 8796093022211, 17592186044422) && Power(5, 17592186044423, 17592186044422, 1)
  {
    hide Power, Rem, Pow;
    PowerZero(5, 17592186044423);
    PowerByte(5, 17592186044423, 0, 1, 0, 1, 0, 1, 0, 1, 0, 1, 1, 5, 0, 25, 0, 625, 0, 390625);
    PowerByte(5, 17592186044423, 8, 390625, 0, 152587890625, 0, 1483331932085, 0, 4086734300689, 0, 6832582784846, 0,
              3725356400055, 0, 11885321448839, 0, 10025735545528, 0, 8269112781276);
    PowerByte(5, 17592186044423, 2048, 8269112781276, 0, 2113487008541, 0, 11410109446350, 0, 5800593842488, 0,
              1220922775379, 0, 6984310055378, 0, 2777580311442, 0, 7342168042633, 0, 2032800179399);
    PowerByte(5, 17592186044423, 524288, 2032800179399, 0, 29067343538, 0, 3481166327067, 0, 1679831833743, 0,
              1003928858570, 0, 8432505030346, 0, 9456649093546, 0, 5255713232935, 0, 5124983620729);
    PowerByte(5, 17592186044423, 134217728, 5124983620729, 0, 8884419578574, 0, 12900688078359, 0, 4506197677333, 0,
              9043201609033, 0, 3264172753968, 0, 15770897632933, 0, 12410005032621, 0, 15848352646683);
    PowerByte(5, 17592186044423, 34359738368, 15848352646683, 0, 11556536276577, 0, 15805456693782, 0, 14686911578275,
              0, 2313988880396, 0, 2854652992048, 0, 11440028700430, 1, 895944163845, 1, 17592186044422);
    PowerBit(5, 17592186044423, 8796093022211, 17592186044422, 0, 1);
  }

  lemma {:induction false} Power17592186044423By11()
    ensures Power(5, 17592186044423, 1599289640402, 16175350649052)
  {
    hide Power, Rem, Pow;
    PowerZero(5, 17592186044423);
    PowerByte(5, 17592186044423, 0, 1, 0, 1, 0, 1, 0, 1, 0, 1, 0, 1, 0, 1, 0, 1, 1, 5);
    PowerByte(5, 17592186044423, 1, 5, 0, 25, 1, 3125, 1, 48828125, 1, 11019003003754, 0, 889673704790, 1,
              3645562315178, 0, 218234834684, 0, 4432177204460);
    PowerByte(5, 17592186044423, 372, 4432177204460, 0, 10120031800184, 1, 14524333889314, 0, 16623440383062, 1,
              7190874489875, 1, 3048818291039, 1, 5483579976962, 0, 16546222464927, 1, 7963252185522);
    PowerByte(5, 17592186044423, 95325, 7963252185522, 0, 15269845547367, 0, 3949745906041, 0, 11092799655200, 1,
              15428815520077, 0, 4006957850700, 1, 1700659195320, 1, 4738693889816, 1, 13052461326643);
    PowerByte(5, 17592186044423, 24403223, 13052461326643, 0, 2555439198809, 1, 3896374385826, 0, 13902686482707, 0,
              7790097894172, 0, 13081534136516, 1, 2694302097987, 0, 8147105463133, 1, 11727855779975);
    PowerByte(5, 17592186044423, 6247225157, 11727855779975, 1, 9596212980425, 1, 7841799175565, 0, 9586459371853, 1,
              890711944738, 0, 7607472902019, 0, 6615260940348, 1, 16196435178143, 0, 16175350649052);
  }

  lemma {:induction false} Power17592186044423By53()
    ensures Power(5, 17592186044423, 331928038574, 9817332491694)
  {
    hide Power, Rem, Pow;
    PowerZero(5, 17592186044423);
    PowerByte(5, 17592186044423, 0, 1, 0, 1, 1, 5, 0, 25, 0, 625, 1, 1953125, 1, 1481300283702, 0, 8152418323034, 1,
              4561335176714);
    PowerByte(5, 17592186044423, 77, 4561335176714, 0, 3164350455670, 1, 14392832568420, 0, 11845779763227, 0,
              11342671493199, 1, 754254754743, 0, 1480410421576, 0, 13080342172457, 0, 4844797162952);
    PowerByte(5, 17592186044423, 19784, 4844797162952, 0, 6095582256422, 1, 2575658386758, 1, 10117575578527, 1,
              858636908879, 0, 1685168856284, 0, 9349002153005, 1, 10083118656320, 1, 16368026124600);
    PowerByte(5, 17592186044423, 5064819, 16368026124600, 1, 14400632056692, 1, 2471926009383, 1, 6268273513415, 0,
              2904393199932, 1, 12926096536132, 1, 14704300091571, 0, 3745188051945, 0, 1675917478378);
    PowerByte(5, 17592186044423, 1296593900, 1675917478378, 1, 8603958827930, 0, 8603232429732, 1, 7514818900436, 0,
              4661901901303, 1, 5458098552031, 1, 9219509935257, 1, 9339594302852, 0, 9817332491694);
  }

  lemma {:induction false} Power17592186044423By97()
    ensures Power(5, 17592186044423, 181362742726, 12529554957474)
  {
    hide Power, Rem, Pow;
    PowerZero(5, 17592186044423);
    PowerByte(5, 17592186044423, 0, 1, 0, 1, 0, 1, 1, 5, 0, 25, 1, 3125, 0, 9765625, 1, 1848135003704, 0,
              11119685058003);
    PowerByte(5, 17592186044423, 42, 11119685058003, 0, 6990164948962, 0, 5863375770258, 1, 12221746851540, 1,
              11319999406071, 1, 9434832166812, 0, 6498639257662, 1, 11503499341956, 0, 7084661409613);
    PowerByte(5, 17592186044423, 10810, 7084661409613, 0, 2899877857309, 0, 2897901021, 0, 6805161034738, 0,
              5399788401983, 1, 10621426839566, 1, 5898883755301, 1, 3942892303822, 1, 12163256543818);
    PowerByte(5, 17592186044423, 2767375, 12163256543818, 1, 2853214677520, 1, 2963852554966, 0, 16685803553260, 1,
              12280218911720, 0, 5392104120477, 1, 11324977241483, 0, 7003289052288, 1, 15698366111558);
    PowerByte(5, 17592186044423, 708448213, 15698366111558, 1, 15151941785460, 1, 14539506166788, 0, 7886640612338, 0,
              15548272890666, 0, 12755068414701, 1, 12708336643852, 1, 13694625934692, 0, 12529554957474);
  }

  lemma {:induction false} Power17592186044423By155542661()
    ensures Power(5, 17592186044423, 113102, 13175472532608)
  {
    hide Power, Rem, Pow;
    PowerZero(5, 17592186044423);
    PowerByte(5, 17592186044423, 0, 1, 0, 1, 0, 1, 0, 1, 0, 1, 0, 1, 0, 1, 0, 1, 1, 5);
    PowerByte(5, 17592186044423, 1, 5, 1, 125, 0, 15625, 1, 1220703125, 1, 8332133976857, 1, 10962502175771, 0,
              14566406899387, 0, 16308424741049, 1, 11903796031621);
    PowerByte(5, 17592186044423, 441, 11903796031621, 1, 604967046693, 1, 8875258214285, 0, 9131977838005, 0,
              4380811604246, 1, 874619226707, 1, 8424415880787, 1, 7684647626694, 0, 13175472532608);
  }

  lemma {:induction false} Factors17592186044423()
    ensures Only(17592186044422, [2, 11, 53, 97, 155542661])
  {
    hide IsPrime, Divides, Only;
    SmallPrimes();
    Prime155542661();
    var fs: seq<nat> := [2, 11, 53, 97, 155542661];
    OnlyOne(fs); OnlyTimes(155542661, 1, fs); OnlyTimes(97, 155542661, fs); OnlyTimes(53, 15087638117, fs);
    OnlyTimes(11, 799644820201, fs); OnlyTimes(2, 8796093022211, fs);
  }

  lemma {:induction false} Witnesses17592186044423A()
    ensures Witness(5, 17592186044423, 2) && Witness(5, 17592186044423, 11) && Witness(5, 17592186044423, 53)
  {
    hide IsPrime, Divides, Rem, Pow, Power, Witness;
    SmallPrimes();
    Power17592186044423By2();
    Witnessed(5, 17592186044423, 2, 8796093022211, 17592186044422);
    Power17592186044423By11();
    Witnessed(5, 17592186044423, 11, 1599289640402, 16175350649052);
    Power17592186044423By53();
    Witnessed(5, 17592186044423, 53, 331928038574, 9817332491694);
  }

  lemma {:induction false} Witnesses17592186044423B()
    ensures Witness(5, 17592186044423, 97) && Witness(5, 17592186044423, 155542661)
  {
    hide IsPrime, Divides, Rem, Pow, Power, Witness;
    SmallPrimes();
    Prime155542661();
    Power17592186044423By97();
    Witnessed(5, 17592186044423, 97, 181362742726, 12529554957474);
    Power17592186044423By155542661();
    Witnessed(5, 17592186044423, 155542661, 113102, 13175472532608);
  }

  lemma {:induction false} Prime17592186044423()
    ensures Certificate(5, 17592186044423, [2, 11, 53, 97, 155542661]) && IsPrime(17592186044423)
  {
    hide IsPrime, Divides, Only, Rem, Pow, Power, Witness;
    Power17592186044423By2();
    Factors17592186044423();
    Witnesses17592186044423A();
    Witnesses17592186044423B();
    Certified(5, 17592186044423, [2, 11, 53, 97, 155542661]);
  }

  lemma {:induction false} Power281474976710677By2()
    ensures Power(6, 281474976710677, 140737488355338, 281474976710676) && Power(6, 281474976710677, 281474976710676, 1)
  {
    hide Power, Rem, Pow;
    PowerZero(6, 281474976710677);
    PowerByte(6, 281474976710677, 0, 1, 1, 6, 0, 36, 0, 1296, 0, 1679616, 0, 2821109907456, 0, 68129999975306, 0,
              130550471652596, 0, 149107669949231);
    PowerByte(6, 281474976710677, 128, 149107669949231, 0, 213366783472897, 0, 27192476265948, 0, 204106973356779, 0,
              72924030101292, 0, 149854056856326, 0, 261926538538459, 0, 9538995979119, 0, 85134443854046);
    PowerByte(6, 281474976710677, 32768, 85134443854046, 0, 264954704888528, 0, 113822193305773, 0, 107881842033893,
              0, 102893336362557, 0, 22986626569084, 0, 222034078814593, 0, 155645628614833, 0, 278197724159524);
    PowerByte(6, 281474976710677, 8388608, 278197724159524, 0, 133950896940412, 0, 111758465671048, 0,
              137337190686918, 0, 7081815050101, 0, 36412197963729, 0, 104533797125472, 0, 163474000946863, 0,
              29695019774717);
    PowerByte(6, 281474976710677, 2147483648, 29695019774717, 0, 27811341747676, 0, 132205802582335, 0,
              184704420550026, 0, 124635472928873, 0, 180207811003281, 0, 172300401218564, 0, 73594071599636, 0,
              155786782490422);
    PowerByte(6, 281474976710677, 549755813888, 155786782490422, 0, 113091842735153, 0, 118085391846207, 0,
              163589334396351, 0, 271944520170405, 1, 53517163209232, 0, 229062977311525, 1, 1009030090199, 0,
              281474976710676);
    PowerBit(6, 281474976710677, 140737488355338, 281474976710676, 0, 1);
  }

  lemma {:induction false} Power281474976710677By3()
    ensures Power(6, 281474976710677, 93824992236892, 176135796874290)
  {
    hide Power, Rem, Pow;
    PowerZero(6, 281474976710677);
    PowerByte(6, 281474976710677, 0, 1, 0, 1, 1, 6, 0, 36, 1, 7776, 0, 60466176, 1, 263377433655727, 0,
              52215506445793, 1, 45219738229479);
    PowerByte(6, 281474976710677, 85, 45219738229479, 0, 42026944525873, 1, 72754654053223, 0, 90829999486817, 1,
              88227330632497, 0, 111788627732849, 1, 256699096902926, 0, 274125602391422, 1, 53756668250460);
    PowerByte(6, 281474976710677, 21845, 53756668250460, 0, 52696266186817, 1, 264621875053229, 0, 182248394547159, 1,
              214366521086858, 0, 188702069605680, 1, 67402494641230, 0, 177905897748517, 1, 81989767847028);
    PowerByte(6, 281474976710677, 5592405, 81989767847028, 0, 120255895648461, 1, 186986937098783, 0, 212717979342527,
              1, 64271408156230, 0, 53397949954393, 1, 87479115125088, 0, 104626809717383, 1, 136572754740384);
    PowerByte(6, 281474976710677, 1431655765, 136572754740384, 0, 165327976518234, 1, 79773475820119, 0,
              213193428729957, 1, 64922059329021, 0, 39641490923907, 1, 276609613438417, 0, 254929444149297, 1,
              170128463958823);
    PowerByte(6, 281474976710677, 366503875925, 170128463958823, 0, 82645976028268, 1, 168261707080455, 0,
              272724572834795, 1, 220594515553491, 1, 243721798360667, 1, 230082673394707, 0, 176135796874291, 0,
              176135796874290);
  }

  lemma {:induction false} Power281474976710677By7()
    ensures Power(6, 281474976710677, 40210710958668, 141106837491201)
  {
    hide Power, Rem, Pow;
    PowerZero(6, 281474976710677);
    PowerByte(6, 281474976710677, 0, 1, 0, 1, 0, 1, 1, 6, 0, 36, 0, 1296, 1, 10077696, 0, 101559956668416, 0,
              194812257554675);
    PowerByte(6, 281474976710677, 36, 194812257554675, 1, 147828570519576, 0, 211665322206849, 0, 250745726277582, 1,
              52162723494244, 0, 57321249930838, 0, 131599144503155, 1, 64238516425876, 0, 115516685288656);
    PowerByte(6, 281474976710677, 9362, 115516685288656, 0, 108701857925491, 1, 109195998482160, 0, 261291694583779,
              0, 100726528078477, 1, 27469324492508, 0, 86863785038724, 0, 246489258852688, 1, 80841614512270);
    PowerByte(6, 281474976710677, 2396745, 80841614512270, 0, 170742269607864, 0, 78898270233234, 1, 166911574817057,
              0, 228147335760023, 0, 27619559387670, 1, 173643842544955, 0, 94509766574613, 0, 269617644433788);
    PowerByte(6, 281474976710677, 613566756, 269617644433788, 1, 252823621779842, 0, 98857635106419, 0,
              20357944234305, 1, 278805199024963, 0, 253628949100574, 0, 10294635428667, 1, 192708341223010, 0,
              110711764702084);
    PowerByte(6, 281474976710677, 157073089682, 110711764702084, 0, 77353331612081, 1, 118444059115259, 0,
              155297813946571, 0, 198516592478113, 1, 106939508979868, 1, 269159244504437, 0, 135807675898064, 0,
              141106837491201);
  }

  lemma {:induction false} Power281474976710677By1361()
    ensures Power(6, 281474976710677, 206814824916, 128485979757940)
  {
    hide Power, Rem, Pow;
    PowerZero(6, 281474976710677);
    PowerByte(6, 281474976710677, 0, 1, 0, 1, 0, 1, 1, 6, 1, 216, 0, 46656, 0, 2176782336, 0, 31580374080278, 0,
              745304008773);
    PowerByte(6, 281474976710677, 48, 745304008773, 0, 155048826344812, 0, 95909156812848, 1, 116851183287355, 0,
              175471270055361, 0, 141259021347776, 1, 234474762686178, 1, 90236691002128, 1, 62309583427745);
    PowerByte(6, 281474976710677, 12327, 62309583427745, 0, 57308602889497, 0, 75412212258276, 0, 157413138730584, 1,
              9842521568536, 1, 37490588557270, 1, 68238757342848, 1, 215227967541556, 1, 173321456532443);
    PowerByte(6, 281474976710677, 3155743, 173321456532443, 1, 53653909549446, 1, 46032274446857, 0, 155353070372932,
              0, 252747614689679, 1, 151238178251006, 0, 192480490956132, 0, 21821670485569, 1, 248615242624274);
    PowerByte(6, 281474976710677, 807870409, 248615242624274, 1, 17731478570639, 1, 174263120551209, 0,
              68974505086890, 1, 151467363023430, 0, 264165113697218, 1, 162819174394203, 0, 95142200131203, 0,
              128485979757940);
  }

  lemma {:induction false} Power281474976710677By2462081249()
    ensures Power(6, 281474976710677, 114324, 117123763460868)
  {
    hide Power, Rem, Pow;
    PowerZero(6, 281474976710677);
    PowerByte(6, 281474976710677, 0, 1, 0, 1, 0, 1, 0, 1, 0, 1, 0, 1, 0, 1, 0, 1, 1, 6);
    PowerByte(6, 281474976710677, 1, 6, 1, 216, 0, 46656, 1, 13060694016, 1, 65961360283800, 1, 64465257266871, 1,
              53083281494405, 1, 122369930623927, 0, 90843945904158);
    PowerByte(6, 281474976710677, 446, 90843945904158, 1, 72774580525931, 0, 192110264940011, 0, 18429926521771, 1,
              81246801070464, 0, 34937520419385, 1, 202610586276518, 0, 111776791691002, 0, 117123763460868);
  }

  lemma {:induction false} Factors281474976710677()
    ensures Only(281474976710676, [2, 3, 7, 1361, 2462081249])
  {
    hide IsPrime, Divides, Only;
    SmallPrimes();
    Prime2462081249();
    var fs: seq<nat> := [2, 3, 7, 1361, 2462081249];
    OnlyOne(fs); OnlyTimes(2462081249, 1, fs); OnlyTimes(1361, 2462081249, fs); OnlyTimes(7, 3350892579889, fs);
    OnlyTimes(3, 23456248059223, fs); OnlyTimes(2, 70368744177669, fs); OnlyTimes(2, 140737488355338, fs);
  }

  lemma {:induction false} Witnesses281474976710677A()
    ensures Witness(6, 281474976710677, 2) && Witness(6, 281474976710677, 3) && Witness(6, 281474976710677, 7)
  {
    hide IsPrime, Divides, Rem, Pow, Power, Witness;
    SmallPrimes();
    Power281474976710677By2();
    Witnessed(6, 281474976710677, 2, 140737488355338, 281474976710676);
    Power281474976710677By3();
    Witnessed(6, 281474976710677, 3, 93824992236892, 176135796874290);
    Power281474976710677By7();
    Witnessed(6, 281474976710677, 7, 40210710958668, 141106837491201);
  }

  lemma {:induction false} Witnesses281474976710677B()
    ensures Witness(6, 281474976710677, 1361) && Witness(6, 281474976710677, 2462081249)
  {
    hide IsPrime, Divides, Rem, Pow, Power, Witness;
    SmallPrimes();
    Prime2462081249();
    Power281474976710677By1361();
    Witnessed(6, 281474976710677, 1361, 206814824916, 128485979757940);
    Power281474976710677By2462081249();
    Witnessed(6, 281474976710677, 2462081249, 114324, 117123763460868);
  }

  lemma {:induction false} Prime281474976710677()
    ensures Certificate(6, 281474976710677, [2, 3, 7, 1361, 2462081249]) && IsPrime(281474976710677)
  {
    hide IsPrime, Divides, Only, Rem, Pow, Power, Witness;
    Power281474976710677By2();
    Factors281474976710677();
    Witnesses281474976710677A();
    Witnesses281474976710677B();
    Certified(6, 281474976710677, [2, 3, 7, 1361, 2462081249]);
  }

  /** Every row of the table is what it claims to be. */
  lemma {:induction false} TableIsValid(row: nat)
    requires row < |GROUPS|
    ensures ValidGroup(GROUPS[row])
  {
    hide IsPrime, Divides, IsPrimitiveRoot, Certificate;
    if row == 0 {
      Prime257();
      Certified(3, 257, [2]);
    } else if row == 1 {
      Prime65537();
      Certified(3, 65537, [2]);
    } else if row == 2 {
      Prime16777259();
      Certified(2, 16777259, [2, 23, 103, 3541]);
    } else if row == 3 {
      Prime268435459();
      Certified(2, 268435459, [2, 3, 19, 87211]);
    } else if row == 4 {
      Prime4294967311();
      Certified(3, 4294967311, [2, 3, 5, 131, 364289]);
    } else if row == 5 {
      Prime8589934609();
      Certified(19, 8589934609, [2, 3, 59, 3033169]);
    } else if row == 6 {
      Prime17179869209();
      Certified(3, 17179869209, [2, 83, 1277, 20261]);
    } else if row == 7 {
      Prime68719476767();
      Certified(5, 68719476767, [2, 163, 883, 238727]);
    } else if row == 8 {
      Prime1099511627791();
      Certified(3, 1099511627791, [2, 3, 5, 36650387593]);
    } else if row == 9 {
      Prime17592186044423();
      Certified(5, 17592186044423, [2, 11, 53, 97, 155542661]);
    } else {
      Prime281474976710677();
      Certified(6, 281474976710677, [2, 3, 7, 1361, 2462081249]);
    }
  }
}
