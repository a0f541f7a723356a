/** The worked example of FIPS 180-4 for a message of one block, "abc": it fixes every constant, rotation and shift. */
module Sha256Example {
  import opened Octets
  import opened Sha256

  const ABC: Bytes := [97, 98, 99]
  const BLOCK: Block := [97, 98, 99, 0x80] + seq(59, _ => 0) + [24]

  lemma AbcPadded()
    ensures Padded(ABC) == BLOCK
  {
    hide Pow256, BigEndian;
    Pow256Of8();
    LengthField();
    assert ZeroBytes(3) == 52;
  }

  lemma LengthField()
    ensures BigEndian(24, 8) == [0, 0, 0, 0, 0, 0, 0, 24]
  {
    assert BigEndian(0, 2) == [0, 0];
    assert BigEndian(0, 4) == [0, 0, 0, 0];
    assert BigEndian(0, 6) == [0, 0, 0, 0, 0, 0];
    assert BigEndian(0, 7) == [0, 0, 0, 0, 0, 0, 0];
  }

  lemma FirstWord()
    ensures Schedule(BLOCK, 0) == 0x61626380
  {
    assert BLOCK[0] == 97 && BLOCK[1] == 98 && BLOCK[2] == 99 && BLOCK[3] == 0x80;
    assert BigEndianWord(97, 98, 99, 0x80) == 0x61626380;
  }

  lemma ZeroWord(t: nat)
    requires 1 <= t < 15
    ensures Schedule(BLOCK, t) == 0
  {
    assert BLOCK[4 * t] == 0 && BLOCK[4 * t + 1] == 0 && BLOCK[4 * t + 2] == 0 && BLOCK[4 * t + 3] == 0;
    assert BigEndianWord(0, 0, 0, 0) == 0;
  }

  lemma LengthWord()
    ensures Schedule(BLOCK, 15) == 24
  {
    assert BLOCK[60] == 0 && BLOCK[61] == 0 && BLOCK[62] == 0 && BLOCK[63] == 24;
    assert BigEndianWord(0, 0, 0, 24) == 24;
  }

  lemma Schedule0()
    ensures Schedule(BLOCK, 0) == 0x61626380 && Schedule(BLOCK, 1) == 0x00000000
    ensures Schedule(BLOCK, 2) == 0x00000000 && Schedule(BLOCK, 3) == 0x00000000
    ensures Schedule(BLOCK, 4) == 0x00000000 && Schedule(BLOCK, 5) == 0x00000000
    ensures Schedule(BLOCK, 6) == 0x00000000 && Schedule(BLOCK, 7) == 0x00000000
  {
    hide Schedule;
    FirstWord();
    forall t: nat | 1 <= t < 8 ensures Schedule(BLOCK, t) == 0 { ZeroWord(t); }
  }

  lemma Schedule8()
    ensures Schedule(BLOCK, 8) == 0x00000000 && Schedule(BLOCK, 9) == 0x00000000
    ensures Schedule(BLOCK, 10) == 0x00000000 && Schedule(BLOCK, 11) == 0x00000000
    ensures Schedule(BLOCK, 12) == 0x00000000 && Schedule(BLOCK, 13) == 0x00000000
    ensures Schedule(BLOCK, 14) == 0x00000000 && Schedule(BLOCK, 15) == 0x00000018
  {
    hide Schedule;
    forall t: nat | 8 <= t < 15 ensures Schedule(BLOCK, t) == 0 { ZeroWord(t); }
    LengthWord();
  }

  lemma Schedule16()
    ensures Schedule(BLOCK, 16) == 0x61626380 && Schedule(BLOCK, 17) == 0x000f0000
    ensures Schedule(BLOCK, 18) == 0x7da86405 && Schedule(BLOCK, 19) == 0x600003c6
    ensures Schedule(BLOCK, 20) == 0x3e9d7b78 && Schedule(BLOCK, 21) == 0x0183fc00
    ensures Schedule(BLOCK, 22) == 0x12dcbfdb && Schedule(BLOCK, 23) == 0xe2e2c38e
  {
    Schedule0();
    Schedule8();
  }

  lemma Schedule24()
    ensures Schedule(BLOCK, 24) == 0xc8215c1a && Schedule(BLOCK, 25) == 0xb73679a2
    ensures Schedule(BLOCK, 26) == 0xe5bc3909 && Schedule(BLOCK, 27) == 0x32663c5b
    ensures Schedule(BLOCK, 28) == 0x9d209d67 && Schedule(BLOCK, 29) == 0xec8726cb
    ensures Schedule(BLOCK, 30) == 0x702138a4 && Schedule(BLOCK, 31) == 0xd3b7973b
  {
    Schedule8();
    Schedule16();
  }

  lemma Schedule32()
    ensures Schedule(BLOCK, 32) == 0x93f5997f && Schedule(BLOCK, 33) == 0x3b68ba73
    ensures Schedule(BLOCK, 34) == 0xaff4ffc1 && Schedule(BLOCK, 35) == 0xf10a5c62
    ensures Schedule(BLOCK, 36) == 0x0a8b3996 && Schedule(BLOCK, 37) == 0x72af830a
    ensures Schedule(BLOCK, 38) == 0x9409e33e && Schedule(BLOCK, 39) == 0x24641522
  {
    Schedule16();
    Schedule24();
  }

  lemma Schedule40()
    ensures Schedule(BLOCK, 40) == 0x9f47bf94 && Schedule(BLOCK, 41) == 0xf0a64f5a
    ensures Schedule(BLOCK, 42) == 0x3e246a79 && Schedule(BLOCK, 43) == 0x27333ba3
    ensures Schedule(BLOCK, 44) == 0x0c4763f2 && Schedule(BLOCK, 45) == 0x840abf27
    ensures Schedule(BLOCK, 46) == 0x7a290d5d && Schedule(BLOCK, 47) == 0x065c43da
  {
    Schedule24();
    Schedule32();
  }

  lemma Schedule48()
    ensures Schedule(BLOCK, 48) == 0xfb3e89cb && Schedule(BLOCK, 49) == 0xcc7617db
    ensures Schedule(BLOCK, 50) == 0xb9e66c34 && Schedule(BLOCK, 51) == 0xa9993667
    ensures Schedule(BLOCK, 52) == 0x84badedd && Schedule(BLOCK, 53) == 0xc21462bc
    ensures Schedule(BLOCK, 54) == 0x1487472c && Schedule(BLOCK, 55) == 0xb20f7a99
  {
    Schedule32();
    Schedule40();
  }

  lemma Schedule56()
    ensures Schedule(BLOCK, 56) == 0xef57b9cd && Schedule(BLOCK, 57) == 0xebe6b238
    ensures Schedule(BLOCK, 58) == 0x9fe3095e && Schedule(BLOCK, 59) == 0x78bc8d4b
    ensures Schedule(BLOCK, 60) == 0xa43fcf15 && Schedule(BLOCK, 61) == 0x668b2ff8
    ensures Schedule(BLOCK, 62) == 0xeeaba2cc && Schedule(BLOCK, 63) == 0x12b1edeb
  {
    Schedule40();
    Schedule48();
  }

  lemma Rounds8()
    ensures Rounds(Start(INITIAL), BLOCK, 8) ==
            Working(0x85a07b5f, 0xe5030380, 0x2b4209f5, 0x04409a6a, 0x0c657a79, 0x9b27a401, 0x714260ad, 0x43ada245)
  {
    hide Schedule;
    var v := Start(INITIAL);
    Schedule0();
    assert Rounds(v, BLOCK, 1) ==
           Working(0x5d6aebcd, 0x6a09e667, 0xbb67ae85, 0x3c6ef372, 0xfa2a4622, 0x510e527f, 0x9b05688c, 0x1f83d9ab);
    assert Rounds(v, BLOCK, 2) ==
           Working(0x5a6ad9ad, 0x5d6aebcd, 0x6a09e667, 0xbb67ae85, 0x78ce7989, 0xfa2a4622, 0x510e527f, 0x9b05688c);
    assert Rounds(v, BLOCK, 3) ==
           Working(0xc8c347a7, 0x5a6ad9ad, 0x5d6aebcd, 0x6a09e667, 0xf92939eb, 0x78ce7989, 0xfa2a4622, 0x510e527f);
    assert Rounds(v, BLOCK, 4) ==
           Working(0xd550f666, 0xc8c347a7, 0x5a6ad9ad, 0x5d6aebcd, 0x24e00850, 0xf92939eb, 0x78ce7989, 0xfa2a4622);
    assert Rounds(v, BLOCK, 5) ==
           Working(0x04409a6a, 0xd550f666, 0xc8c347a7, 0x5a6ad9ad, 0x43ada245, 0x24e00850, 0xf92939eb, 0x78ce7989);
    assert Rounds(v, BLOCK, 6) ==
           Working(0x2b4209f5, 0x04409a6a, 0xd550f666, 0xc8c347a7, 0x714260ad, 0x43ada245, 0x24e00850, 0xf92939eb);
    assert Rounds(v, BLOCK, 7) ==
           Working(0xe5030380, 0x2b4209f5, 0x04409a6a, 0xd550f666, 0x9b27a401, 0x714260ad, 0x43ada245, 0x24e00850);
    assert Rounds(v, BLOCK, 8) ==
           Working(0x85a07b5f, 0xe5030380, 0x2b4209f5, 0x04409a6a, 0x0c657a79, 0x9b27a401, 0x714260ad, 0x43ada245);
  }

  lemma Rounds16()
    ensures Rounds(Start(INITIAL), BLOCK, 16) ==
            Working(0xb0fa238e, 0xc0645fde, 0xd932eb16, 0x87912990, 0x07590dcd, 0x0b92f20c, 0x745a48de, 0x1e578218)
  {
    hide Schedule;
    var v := Start(INITIAL);
    Schedule8();
    Rounds8();
    assert Rounds(v, BLOCK, 9) ==
           Working(0x8e04ecb9, 0x85a07b5f, 0xe5030380, 0x2b4209f5, 0x32ca2d8c, 0x0c657a79, 0x9b27a401, 0x714260ad);
    assert Rounds(v, BLOCK, 10) ==
           Working(0x8c87346b, 0x8e04ecb9, 0x85a07b5f, 0xe5030380, 0x1cc92596, 0x32ca2d8c, 0x0c657a79, 0x9b27a401);
    assert Rounds(v, BLOCK, 11) ==
           Working(0x4798a3f4, 0x8c87346b, 0x8e04ecb9, 0x85a07b5f, 0x436b23e8, 0x1cc92596, 0x32ca2d8c, 0x0c657a79);
    assert Rounds(v, BLOCK, 12) ==
           Working(0xf71fc5a9, 0x4798a3f4, 0x8c87346b, 0x8e04ecb9, 0x816fd6e9, 0x436b23e8, 0x1cc92596, 0x32ca2d8c);
    assert Rounds(v, BLOCK, 13) ==
           Working(0x87912990, 0xf71fc5a9, 0x4798a3f4, 0x8c87346b, 0x1e578218, 0x816fd6e9, 0x436b23e8, 0x1cc92596);
    assert Rounds(v, BLOCK, 14) ==
           Working(0xd932eb16, 0x87912990, 0xf71fc5a9, 0x4798a3f4, 0x745a48de, 0x1e578218, 0x816fd6e9, 0x436b23e8);
    assert Rounds(v, BLOCK, 15) ==
           Working(0xc0645fde, 0xd932eb16, 0x87912990, 0xf71fc5a9, 0x0b92f20c, 0x745a48de, 0x1e578218, 0x816fd6e9);
    assert Rounds(v, BLOCK, 16) ==
           Working(0xb0fa238e, 0xc0645fde, 0xd932eb16, 0x87912990, 0x07590dcd, 0x0b92f20c, 0x745a48de, 0x1e578218);
  }

  lemma Rounds24()
    ensures Rounds(Start(INITIAL), BLOCK, 24) ==
            Working(0xc5d53d8d, 0xa7a3623f, 0xc2606d6d, 0x9dc68b63, 0xaa47c347, 0x49f5114a, 0xe1257970, 0x8ada8930)
  {
    hide Schedule;
    var v := Start(INITIAL);
    Schedule16();
    Rounds16();
    assert Rounds(v, BLOCK, 17) ==
           Working(0x21da9a9b, 0xb0fa238e, 0xc0645fde, 0xd932eb16, 0x8034229c, 0x07590dcd, 0x0b92f20c, 0x745a48de);
    assert Rounds(v, BLOCK, 18) ==
           Working(0xc2fbd9d1, 0x21da9a9b, 0xb0fa238e, 0xc0645fde, 0x846ee454, 0x8034229c, 0x07590dcd, 0x0b92f20c);
    assert Rounds(v, BLOCK, 19) ==
           Working(0xfe777bbf, 0xc2fbd9d1, 0x21da9a9b, 0xb0fa238e, 0xcc899961, 0x846ee454, 0x8034229c, 0x07590dcd);
    assert Rounds(v, BLOCK, 20) ==
           Working(0xe1f20c33, 0xfe777bbf, 0xc2fbd9d1, 0x21da9a9b, 0xb0638179, 0xcc899961, 0x846ee454, 0x8034229c);
    assert Rounds(v, BLOCK, 21) ==
           Working(0x9dc68b63, 0xe1f20c33, 0xfe777bbf, 0xc2fbd9d1, 0x8ada8930, 0xb0638179, 0xcc899961, 0x846ee454);
    assert Rounds(v, BLOCK, 22) ==
           Working(0xc2606d6d, 0x9dc68b63, 0xe1f20c33, 0xfe777bbf, 0xe1257970, 0x8ada8930, 0xb0638179, 0xcc899961);
    assert Rounds(v, BLOCK, 23) ==
           Working(0xa7a3623f, 0xc2606d6d, 0x9dc68b63, 0xe1f20c33, 0x49f5114a, 0xe1257970, 0x8ada8930, 0xb0638179);
    assert Rounds(v, BLOCK, 24) ==
           Working(0xc5d53d8d, 0xa7a3623f, 0xc2606d6d, 0x9dc68b63, 0xaa47c347, 0x49f5114a, 0xe1257970, 0x8ada8930);
  }

  lemma Rounds32()
    ensures Rounds(Start(INITIAL), BLOCK, 32) ==
            Working(0x73b33bf5, 0xea992a22, 0xa0060b30, 0x363482c9, 0xba591112, 0x0109ab3a, 0xade79437, 0x6112a3b7)
  {
    hide Schedule;
    var v := Start(INITIAL);
    Schedule24();
    Rounds24();
    assert Rounds(v, BLOCK, 25) ==
           Working(0x1c2c2838, 0xc5d53d8d, 0xa7a3623f, 0xc2606d6d, 0x2823ef91, 0xaa47c347, 0x49f5114a, 0xe1257970);
    assert Rounds(v, BLOCK, 26) ==
           Working(0xcde8037d, 0x1c2c2838, 0xc5d53d8d, 0xa7a3623f, 0x14383d8e, 0x2823ef91, 0xaa47c347, 0x49f5114a);
    assert Rounds(v, BLOCK, 27) ==
           Working(0xb62ec4bc, 0xcde8037d, 0x1c2c2838, 0xc5d53d8d, 0xc74c6516, 0x14383d8e, 0x2823ef91, 0xaa47c347);
    assert Rounds(v, BLOCK, 28) ==
           Working(0x77d37528, 0xb62ec4bc, 0xcde8037d, 0x1c2c2838, 0xedffbff8, 0xc74c6516, 0x14383d8e, 0x2823ef91);
    assert Rounds(v, BLOCK, 29) ==
           Working(0x363482c9, 0x77d37528, 0xb62ec4bc, 0xcde8037d, 0x6112a3b7, 0xedffbff8, 0xc74c6516, 0x14383d8e);
    assert Rounds(v, BLOCK, 30) ==
           Working(0xa0060b30, 0x363482c9, 0x77d37528, 0xb62ec4bc, 0xade79437, 0x6112a3b7, 0xedffbff8, 0xc74c6516);
    assert Rounds(v, BLOCK, 31) ==
           Working(0xea992a22, 0xa0060b30, 0x363482c9, 0x77d37528, 0x0109ab3a, 0xade79437, 0x6112a3b7, 0xedffbff8);
    assert Rounds(v, BLOCK, 32) ==
           Working(0x73b33bf5, 0xea992a22, 0xa0060b30, 0x363482c9, 0xba591112, 0x0109ab3a, 0xade79437, 0x6112a3b7);
  }

  lemma Rounds40()
    ensures Rounds(Start(INITIAL), BLOCK, 40) ==
            Working(0x79ea687a, 0x6dc57a8a, 0x34df1604, 0x41a65cb1, 0x1efbc0a0, 0xf0781bc8, 0xa507a53d, 0x0772a26b)
  {
    hide Schedule;
    var v := Start(INITIAL);
    Schedule32();
    Rounds32();
    assert Rounds(v, BLOCK, 33) ==
           Working(0x98e12507, 0x73b33bf5, 0xea992a22, 0xa0060b30, 0x9cd9f5f6, 0xba591112, 0x0109ab3a, 0xade79437);
    assert Rounds(v, BLOCK, 34) ==
           Working(0xfe604df5, 0x98e12507, 0x73b33bf5, 0xea992a22, 0x59249dd3, 0x9cd9f5f6, 0xba591112, 0x0109ab3a);
    assert Rounds(v, BLOCK, 35) ==
           Working(0xa9a7738c, 0xfe604df5, 0x98e12507, 0x73b33bf5, 0x085f3833, 0x59249dd3, 0x9cd9f5f6, 0xba591112);
    assert Rounds(v, BLOCK, 36) ==
           Working(0x65a0cfe4, 0xa9a7738c, 0xfe604df5, 0x98e12507, 0xf4b002d6, 0x085f3833, 0x59249dd3, 0x9cd9f5f6);
    assert Rounds(v, BLOCK, 37) ==
           Working(0x41a65cb1, 0x65a0cfe4, 0xa9a7738c, 0xfe604df5, 0x0772a26b, 0xf4b002d6, 0x085f3833, 0x59249dd3);
    assert Rounds(v, BLOCK, 38) ==
           Working(0x34df1604, 0x41a65cb1, 0x65a0cfe4, 0xa9a7738c, 0xa507a53d, 0x0772a26b, 0xf4b002d6, 0x085f3833);
    assert Rounds(v, BLOCK, 39) ==
           Working(0x6dc57a8a, 0x34df1604, 0x41a65cb1, 0x65a0cfe4, 0xf0781bc8, 0xa507a53d, 0x0772a26b, 0xf4b002d6);
    assert Rounds(v, BLOCK, 40) ==
           Working(0x79ea687a, 0x6dc57a8a, 0x34df1604, 0x41a65cb1, 0x1efbc0a0, 0xf0781bc8, 0xa507a53d, 0x0772a26b);
  }

  lemma Rounds48()
    ensures Rounds(Start(INITIAL), BLOCK, 48) ==
            Working(0x4172328d, 0xa14c14b0, 0x72ab4b91, 0x26628815, 0xfecf0bc6, 0xd57b94a9, 0xb7755da1, 0xa80f11f0)
  {
    hide Schedule;
    var v := Start(INITIAL);
    Schedule40();
    Rounds40();
    assert Rounds(v, BLOCK, 41) ==
           Working(0xd6670766, 0x79ea687a, 0x6dc57a8a, 0x34df1604, 0x26352d63, 0x1efbc0a0, 0xf0781bc8, 0xa507a53d);
    assert Rounds(v, BLOCK, 42) ==
           Working(0xdf46652f, 0xd6670766, 0x79ea687a, 0x6dc57a8a, 0x838b2711, 0x26352d63, 0x1efbc0a0, 0xf0781bc8);
    assert Rounds(v, BLOCK, 43) ==
           Working(0x17aa0dfe, 0xdf46652f, 0xd6670766, 0x79ea687a, 0xdecd4715, 0x838b2711, 0x26352d63, 0x1efbc0a0);
    assert Rounds(v, BLOCK, 44) ==
           Working(0x9d4baf93, 0x17aa0dfe, 0xdf46652f, 0xd6670766, 0xfda24c2e, 0xdecd4715, 0x838b2711, 0x26352d63);
    assert Rounds(v, BLOCK, 45) ==
           Working(0x26628815, 0x9d4baf93, 0x17aa0dfe, 0xdf46652f, 0xa80f11f0, 0xfda24c2e, 0xdecd4715, 0x838b2711);
    assert Rounds(v, BLOCK, 46) ==
           Working(0x72ab4b91, 0x26628815, 0x9d4baf93, 0x17aa0dfe, 0xb7755da1, 0xa80f11f0, 0xfda24c2e, 0xdecd4715);
    assert Rounds(v, BLOCK, 47) ==
           Working(0xa14c14b0, 0x72ab4b91, 0x26628815, 0x9d4baf93, 0xd57b94a9, 0xb7755da1, 0xa80f11f0, 0xfda24c2e);
    assert Rounds(v, BLOCK, 48) ==
           Working(0x4172328d, 0xa14c14b0, 0x72ab4b91, 0x26628815, 0xfecf0bc6, 0xd57b94a9, 0xb7755da1, 0xa80f11f0);
  }

  lemma Rounds56()
    ensures Rounds(Start(INITIAL), BLOCK, 56) ==
            Working(0x38cc9913, 0x3ec45cdb, 0xf5702fdb, 0x101fd28f, 0x54cb266b, 0xe50e1b4f, 0x9f4787c3, 0x529e7d00)
  {
    hide Schedule;
    var v := Start(INITIAL);
    Schedule48();
    Rounds48();
    assert Rounds(v, BLOCK, 49) ==
           Working(0x05757ceb, 0x4172328d, 0xa14c14b0, 0x72ab4b91, 0xbd714038, 0xfecf0bc6, 0xd57b94a9, 0xb7755da1);
    assert Rounds(v, BLOCK, 50) ==
           Working(0xf11bfaa8, 0x05757ceb, 0x4172328d, 0xa14c14b0, 0x6e5c390c, 0xbd714038, 0xfecf0bc6, 0xd57b94a9);
    assert Rounds(v, BLOCK, 51) ==
           Working(0x7a0508a1, 0xf11bfaa8, 0x05757ceb, 0x4172328d, 0x52f1ccf7, 0x6e5c390c, 0xbd714038, 0xfecf0bc6);
    assert Rounds(v, BLOCK, 52) ==
           Working(0x886e7a22, 0x7a0508a1, 0xf11bfaa8, 0x05757ceb, 0x49231c1e, 0x52f1ccf7, 0x6e5c390c, 0xbd714038);
    assert Rounds(v, BLOCK, 53) ==
           Working(0x101fd28f, 0x886e7a22, 0x7a0508a1, 0xf11bfaa8, 0x529e7d00, 0x49231c1e, 0x52f1ccf7, 0x6e5c390c);
    assert Rounds(v, BLOCK, 54) ==
           Working(0xf5702fdb, 0x101fd28f, 0x886e7a22, 0x7a0508a1, 0x9f4787c3, 0x529e7d00, 0x49231c1e, 0x52f1ccf7);
    assert Rounds(v, BLOCK, 55) ==
           Working(0x3ec45cdb, 0xf5702fdb, 0x101fd28f, 0x886e7a22, 0xe50e1b4f, 0x9f4787c3, 0x529e7d00, 0x49231c1e);
    assert Rounds(v, BLOCK, 56) ==
           Working(0x38cc9913, 0x3ec45cdb, 0xf5702fdb, 0x101fd28f, 0x54cb266b, 0xe50e1b4f, 0x9f4787c3, 0x529e7d00);
  }

  lemma Rounds64()
    ensures Rounds(Start(INITIAL), BLOCK, 64) ==
            Working(0x506e3058, 0xd39a2165, 0x04d24d6c, 0xb85e2ce9, 0x5ef50f24, 0xfb121210, 0x948d25b6, 0x961f4894)
  {
    hide Schedule;
    var v := Start(INITIAL);
    Schedule56();
    Rounds56();
    assert Rounds(v, BLOCK, 57) ==
           Working(0xfcd1887b, 0x38cc9913, 0x3ec45cdb, 0xf5702fdb, 0x9b5e906c, 0x54cb266b, 0xe50e1b4f, 0x9f4787c3);
    assert Rounds(v, BLOCK, 58) ==
           Working(0xc062d46f, 0xfcd1887b, 0x38cc9913, 0x3ec45cdb, 0x7e44008e, 0x9b5e906c, 0x54cb266b, 0xe50e1b4f);
    assert Rounds(v, BLOCK, 59) ==
           Working(0xffb70472, 0xc062d46f, 0xfcd1887b, 0x38cc9913, 0x6d83bfc6, 0x7e44008e, 0x9b5e906c, 0x54cb266b);
    assert Rounds(v, BLOCK, 60) ==
           Working(0xb6ae8fff, 0xffb70472, 0xc062d46f, 0xfcd1887b, 0xb21bad3d, 0x6d83bfc6, 0x7e44008e, 0x9b5e906c);
    assert Rounds(v, BLOCK, 61) ==
           Working(0xb85e2ce9, 0xb6ae8fff, 0xffb70472, 0xc062d46f, 0x961f4894, 0xb21bad3d, 0x6d83bfc6, 0x7e44008e);
    assert Rounds(v, BLOCK, 62) ==
           Working(0x04d24d6c, 0xb85e2ce9, 0xb6ae8fff, 0xffb70472, 0x948d25b6, 0x961f4894, 0xb21bad3d, 0x6d83bfc6);
    assert Rounds(v, BLOCK, 63) ==
           Working(0xd39a2165, 0x04d24d6c, 0xb85e2ce9, 0xb6ae8fff, 0xfb121210, 0x948d25b6, 0x961f4894, 0xb21bad3d);
    assert Rounds(v, BLOCK, 64) ==
           Working(0x506e3058, 0xd39a2165, 0x04d24d6c, 0xb85e2ce9, 0x5ef50f24, 0xfb121210, 0x948d25b6, 0x961f4894);
  }

  const DIGEST: HashValue := [
    0xba7816bf, 0x8f01cfea, 0x414140de, 0x5dae2223, 0xb00361a3, 0x96177a9c, 0xb410ff61, 0xf20015ad
  ]

  lemma AbcHash()
    ensures Hash(ABC) == DIGEST
  {
    hide Rounds, Padded, Start;
    AbcPadded();
    Rounds64();
    assert BLOCK[..64] == BLOCK && BLOCK[64..] == [];
    var v := Words(Rounds(Start(INITIAL), BLOCK, 64));
    assert forall i :: 0 <= i < 8 ==> AddBack(INITIAL, v)[i] == DIGEST[i];
    assert HashBlocks(INITIAL, BLOCK) == HashBlocks(DIGEST, []);
  }

  lemma DigestWords()
    ensures WordHex(0xba7816bf) == "ba7816bf"
    ensures WordHex(0x8f01cfea) == "8f01cfea"
    ensures WordHex(0x414140de) == "414140de"
    ensures WordHex(0x5dae2223) == "5dae2223"
    ensures WordHex(0xb00361a3) == "b00361a3"
    ensures WordHex(0x96177a9c) == "96177a9c"
    ensures WordHex(0xb410ff61) == "b410ff61"
    ensures WordHex(0xf20015ad) == "f20015ad"
  {
  }

  /** The digest that FIPS 180-4 gives for "abc". */
  lemma AbcDigest()
    ensures DigestText(Hash(ABC)) == "sha256:" + ("ba7816bf" + "8f01cfea" + "414140de" + "5dae2223" +
                                     "b00361a3" + "96177a9c" + "b410ff61" + "f20015ad")
  {
    hide DigestText, Hash, WordHex;
    AbcHash();
    Printed(DIGEST);
    DigestWords();
  }

  lemma Printed(h: HashValue)
    ensures DigestText(h) == "sha256:" + (WordHex(h[0]) + WordHex(h[1]) + WordHex(h[2]) + WordHex(h[3]) +
                             WordHex(h[4]) + WordHex(h[5]) + WordHex(h[6]) + WordHex(h[7]))
  {
    hide WordHex, WordsHex;
    assert WordsHex(h[..0]) == "" by { NothingPrinted(); }
    assert h[..8] == h;
    PrintedTwoMore(h, 0);
    PrintedTwoMore(h, 2);
    PrintedTwoMore(h, 4);
    PrintedTwoMore(h, 6);
  }

  lemma NothingPrinted()
    ensures WordsHex([]) == ""
  {
  }

  lemma PrintedTwoMore(h: HashValue, k: nat)
    requires k <= 6
    ensures WordsHex(h[..k + 2]) == WordsHex(h[..k]) + WordHex(h[k]) + WordHex(h[k + 1])
  {
    assert h[..k + 2][..k + 1] == h[..k + 1];
    assert h[..k + 1][..k] == h[..k];
  }
}
