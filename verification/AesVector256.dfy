/**
 The AES-256 example of appendix C.3 of FIPS 197, through the key expansion and every round of the model.
 */
module AesVector256 {
  import opened GaloisField
  import opened ProductCipher
  import opened AesCipher
  import opened AesKeySchedule
  import opened AesCode
  import opened AesSbox
  import opened AesVector

  function UserKey(): (b: seq<Byte>)
    ensures |b| == 32
  {
    [Byte(0x00), Byte(0x01), Byte(0x02), Byte(0x03), Byte(0x04), Byte(0x05), Byte(0x06), Byte(0x07),
     Byte(0x08), Byte(0x09), Byte(0x0a), Byte(0x0b), Byte(0x0c), Byte(0x0d), Byte(0x0e), Byte(0x0f),
     Byte(0x10), Byte(0x11), Byte(0x12), Byte(0x13), Byte(0x14), Byte(0x15), Byte(0x16), Byte(0x17),
     Byte(0x18), Byte(0x19), Byte(0x1a), Byte(0x1b), Byte(0x1c), Byte(0x1d), Byte(0x1e), Byte(0x1f)]
  }

  function Encrypted(): State { Block(0x8ea2b7ca, 0x516745bf, 0xeafc4990, 0x4b496089) }

  /** Round key `r`. */
  function ExampleKey(r: nat): State {
    if r < 7 then
      if r < 3 then
        if r < 1 then
          Block(0x00010203, 0x04050607, 0x08090a0b, 0x0c0d0e0f)
        else
          if r == 1 then Block(0x10111213, 0x14151617, 0x18191a1b, 0x1c1d1e1f)
          else Block(0xa573c29f, 0xa176c498, 0xa97fce93, 0xa572c09c)
      else
        if r < 5 then
          if r == 3 then Block(0x1651a8cd, 0x0244beda, 0x1a5da4c1, 0x0640bade)
          else Block(0xae87dff0, 0x0ff11b68, 0xa68ed5fb, 0x03fc1567)
        else
          if r == 5 then Block(0x6de1f148, 0x6fa54f92, 0x75f8eb53, 0x73b8518d)
          else Block(0xc656827f, 0xc9a79917, 0x6f294cec, 0x6cd5598b)
    else
      if r < 11 then
        if r < 9 then
          if r == 7 then Block(0x3de23a75, 0x524775e7, 0x27bf9eb4, 0x5407cf39)
          else Block(0x0bdc905f, 0xc27b0948, 0xad5245a4, 0xc1871c2f)
        else
          if r == 9 then Block(0x45f5a660, 0x17b2d387, 0x300d4d33, 0x640a820a)
          else Block(0x7ccff71c, 0xbeb4fe54, 0x13e6bbf0, 0xd261a7df)
      else
        if r < 13 then
          if r == 11 then Block(0xf01afafe, 0xe7a82979, 0xd7a5644a, 0xb3afe640)
          else Block(0x2541fe71, 0x9bf50025, 0x8813bbd5, 0x5a721c0a)
        else
          if r == 13 then Block(0x4e5a6699, 0xa9f24fe0, 0x7e572baa, 0xcdf8cdea)
          else Block(0x24fc79cc, 0xbf0979e9, 0x371ac23c, 0x6d68de36)
  }

  /** The state at the start of round `r + 1`. */
  function ExampleState(r: nat): State {
    if r < 7 then
      if r < 3 then
        if r < 1 then
          Block(0x00102030, 0x40506070, 0x8090a0b0, 0xc0d0e0f0)
        else
          if r == 1 then Block(0x4f637606, 0x43e0aa85, 0xefa72132, 0x01a4e705)
          else Block(0x1859fbc2, 0x8a1c00a0, 0x78ed8aad, 0xc42f6109)
      else
        if r < 5 then
          if r == 3 then Block(0x975c66c1, 0xcb9f3fa8, 0xa93a28df, 0x8ee10f63)
          else Block(0x1c05f271, 0xa417e04f, 0xf921c5c1, 0x04701554)
        else
          if r == 5 then Block(0xc357aae1, 0x1b45b7b0, 0xa2c7bd28, 0xa8dc99fa)
          else Block(0x7f074143, 0xcb4e243e, 0xc10c815d, 0x8375d54c)
    else
      if r < 10 then
        if r < 8 then
          Block(0xd653a469, 0x6ca0bc0f, 0x5acaab5d, 0xb96c5e7d)
        else
          if r == 8 then Block(0x5aa85839, 0x5fd28d7d, 0x05e1a388, 0x68f3b9c5)
          else Block(0x4a824851, 0xc57e7e47, 0x643de50c, 0x2af3e8c9)
      else
        if r < 12 then
          if r == 10 then Block(0xc14907f6, 0xca3b3aa0, 0x70e9aa31, 0x3b52b5ec)
          else Block(0x5f9c6abf, 0xbac634aa, 0x50409fa7, 0x66677653)
        else
          if r == 12 then Block(0x51660495, 0x43539503, 0x14fb86e4, 0x01922521)
          else Block(0x627bceb9, 0x999d5aaa, 0xc945ecf4, 0x23f56da5)
  }

  // ---------- the key expansion ----------

  lemma Key0(box: Box)
    requires box.sub == SubByte
    ensures RoundKey(box, KeyCols(UserKey(), 8), 0) == ExampleKey(0)
  {
  }

  lemma Key1(box: Box)
    requires box.sub == SubByte
    ensures RoundKey(box, KeyCols(UserKey(), 8), 1) == ExampleKey(1)
  {
  }

  lemma Key2()
    ensures ExampleKey(2) == NextKey(SubByte, 8, ExampleKey(0), ExampleKey(1), 2)
  {
    assert S(0x1c) == 0x9c && S(0x1d) == 0xa4 && S(0x1e) == 0x72 && S(0x1f) == 0xc0;
  }

  lemma Key3()
    ensures ExampleKey(3) == NextKey(SubByte, 8, ExampleKey(1), ExampleKey(2), 3)
  {
    assert S(0xa5) == 0x06 && S(0x72) == 0x40 && S(0xc0) == 0xba && S(0x9c) == 0xde;
  }

  lemma Key4()
    ensures ExampleKey(4) == NextKey(SubByte, 8, ExampleKey(2), ExampleKey(3), 4)
  {
    assert S(0x06) == 0x6f && S(0x40) == 0x09 && S(0xba) == 0xf4 && S(0xde) == 0x1d;
  }

  lemma Key5()
    ensures ExampleKey(5) == NextKey(SubByte, 8, ExampleKey(3), ExampleKey(4), 5)
  {
    assert S(0x03) == 0x7b && S(0xfc) == 0xb0 && S(0x15) == 0x59 && S(0x67) == 0x85;
  }

  lemma Key6()
    ensures ExampleKey(6) == NextKey(SubByte, 8, ExampleKey(4), ExampleKey(5), 6)
  {
    assert S(0x73) == 0x8f && S(0xb8) == 0x6c && S(0x51) == 0xd1 && S(0x8d) == 0x5d;
  }

  lemma Key7()
    ensures ExampleKey(7) == NextKey(SubByte, 8, ExampleKey(5), ExampleKey(6), 7)
  {
    assert S(0x6c) == 0x50 && S(0xd5) == 0x03 && S(0x59) == 0xcb && S(0x8b) == 0x3d;
  }

  lemma Key8()
    ensures ExampleKey(8) == NextKey(SubByte, 8, ExampleKey(6), ExampleKey(7), 8)
  {
    assert S(0x54) == 0x20 && S(0x07) == 0xc5 && S(0xcf) == 0x8a && S(0x39) == 0x12;
  }

  lemma Key9()
    ensures ExampleKey(9) == NextKey(SubByte, 8, ExampleKey(7), ExampleKey(8), 9)
  {
    assert S(0xc1) == 0x78 && S(0x87) == 0x17 && S(0x1c) == 0x9c && S(0x2f) == 0x15;
  }

  lemma Key10()
    ensures ExampleKey(10) == NextKey(SubByte, 8, ExampleKey(8), ExampleKey(9), 10)
  {
    assert S(0x64) == 0x43 && S(0x0a) == 0x67 && S(0x82) == 0x13 && S(0x0a) == 0x67;
  }

  lemma Key11()
    ensures ExampleKey(11) == NextKey(SubByte, 8, ExampleKey(9), ExampleKey(10), 11)
  {
    assert S(0xd2) == 0xb5 && S(0x61) == 0xef && S(0xa7) == 0x5c && S(0xdf) == 0x9e;
  }

  lemma Key12()
    ensures ExampleKey(12) == NextKey(SubByte, 8, ExampleKey(10), ExampleKey(11), 12)
  {
    assert S(0xb3) == 0x6d && S(0xaf) == 0x79 && S(0xe6) == 0x8e && S(0x40) == 0x09;
  }

  lemma Key13()
    ensures ExampleKey(13) == NextKey(SubByte, 8, ExampleKey(11), ExampleKey(12), 13)
  {
    assert S(0x5a) == 0xbe && S(0x72) == 0x40 && S(0x1c) == 0x9c && S(0x0a) == 0x67;
  }

  lemma Key14()
    ensures ExampleKey(14) == NextKey(SubByte, 8, ExampleKey(12), ExampleKey(13), 14)
  {
    assert S(0xcd) == 0xbd && S(0xf8) == 0x41 && S(0xcd) == 0xbd && S(0xea) == 0x87;
  }

  lemma Keys2On(r: nat)
    requires 2 <= r < 6
    ensures ExampleKey(r) == NextKey(SubByte, 8, ExampleKey(r - 2), ExampleKey(r - 1), r)
  {
    match r {
      case 2 => Key2();
      case 3 => Key3();
      case 4 => Key4();
      case _ => Key5();
    }
  }

  lemma Keys6On(r: nat)
    requires 6 <= r < 9
    ensures ExampleKey(r) == NextKey(SubByte, 8, ExampleKey(r - 2), ExampleKey(r - 1), r)
  {
    match r {
      case 6 => Key6();
      case 7 => Key7();
      case _ => Key8();
    }
  }

  lemma Keys9On(r: nat)
    requires 9 <= r < 12
    ensures ExampleKey(r) == NextKey(SubByte, 8, ExampleKey(r - 2), ExampleKey(r - 1), r)
  {
    match r {
      case 9 => Key9();
      case 10 => Key10();
      case _ => Key11();
    }
  }

  lemma Keys12On(r: nat)
    requires 12 <= r < 15
    ensures ExampleKey(r) == NextKey(SubByte, 8, ExampleKey(r - 2), ExampleKey(r - 1), r)
  {
    match r {
      case 12 => Key12();
      case 13 => Key13();
      case _ => Key14();
    }
  }

  lemma AllKeys()
    ensures KeysFollow(SubByte, 8, ExampleKey, 14)
  {
    forall r: nat | 2 <= r <= 14
      ensures ExampleKey(r) == NextKey(SubByte, 8, ExampleKey(r - 2), ExampleKey(r - 1), r)
    {
      if r < 6 {
        Keys2On(r);
      } else if r < 9 {
        Keys6On(r);
      } else if r < 12 {
        Keys9On(r);
      } else {
        Keys12On(r);
      }
    }
  }

  // ---------- the rounds ----------

  lemma Round1()
    ensures FullRound(ExampleState(0), ExampleKey(1)) == ExampleState(1)
  {
    assert S(0x00) == 0x63 && S(0x10) == 0xca && S(0x20) == 0xb7 && S(0x30) == 0x04;
    assert S(0x40) == 0x09 && S(0x50) == 0x53 && S(0x60) == 0xd0 && S(0x70) == 0x51;
    assert S(0x80) == 0xcd && S(0x90) == 0x60 && S(0xa0) == 0xe0 && S(0xb0) == 0xe7;
    assert S(0xc0) == 0xba && S(0xd0) == 0x70 && S(0xe0) == 0xe1 && S(0xf0) == 0x8c;
  }

  lemma Round2()
    ensures FullRound(ExampleState(1), ExampleKey(2)) == ExampleState(2)
  {
    assert S(0x4f) == 0x84 && S(0x63) == 0xfb && S(0x76) == 0x38 && S(0x06) == 0x6f;
    assert S(0x43) == 0x1a && S(0xe0) == 0xe1 && S(0xaa) == 0xac && S(0x85) == 0x97;
    assert S(0xef) == 0xdf && S(0xa7) == 0x5c && S(0x21) == 0xfd && S(0x32) == 0x23;
    assert S(0x01) == 0x7c && S(0xa4) == 0x49 && S(0xe7) == 0x94 && S(0x05) == 0x6b;
  }

  lemma Round3()
    ensures FullRound(ExampleState(2), ExampleKey(3)) == ExampleState(3)
  {
    assert S(0x18) == 0xad && S(0x59) == 0xcb && S(0xfb) == 0x0f && S(0xc2) == 0x25;
    assert S(0x8a) == 0x7e && S(0x1c) == 0x9c && S(0x00) == 0x63 && S(0xa0) == 0xe0;
    assert S(0x78) == 0xbc && S(0xed) == 0x55 && S(0x8a) == 0x7e && S(0xad) == 0x95;
    assert S(0xc4) == 0x1c && S(0x2f) == 0x15 && S(0x61) == 0xef && S(0x09) == 0x01;
  }

  lemma Round4()
    ensures FullRound(ExampleState(3), ExampleKey(4)) == ExampleState(4)
  {
    assert S(0x97) == 0x88 && S(0x5c) == 0x4a && S(0x66) == 0x33 && S(0xc1) == 0x78;
    assert S(0xcb) == 0x1f && S(0x9f) == 0xdb && S(0x3f) == 0x75 && S(0xa8) == 0xc2;
    assert S(0xa9) == 0xd3 && S(0x3a) == 0x80 && S(0x28) == 0x34 && S(0xdf) == 0x9e;
    assert S(0x8e) == 0x19 && S(0xe1) == 0xf8 && S(0x0f) == 0x76 && S(0x63) == 0xfb;
  }

  lemma Round5()
    ensures FullRound(ExampleState(4), ExampleKey(5)) == ExampleState(5)
  {
    assert S(0x1c) == 0x9c && S(0x05) == 0x6b && S(0xf2) == 0x89 && S(0x71) == 0xa3;
    assert S(0xa4) == 0x49 && S(0x17) == 0xf0 && S(0xe0) == 0xe1 && S(0x4f) == 0x84;
    assert S(0xf9) == 0x99 && S(0x21) == 0xfd && S(0xc5) == 0xa6 && S(0xc1) == 0x78;
    assert S(0x04) == 0xf2 && S(0x70) == 0x51 && S(0x15) == 0x59 && S(0x54) == 0x20;
  }

  lemma Round6()
    ensures FullRound(ExampleState(5), ExampleKey(6)) == ExampleState(6)
  {
    assert S(0xc3) == 0x2e && S(0x57) == 0x5b && S(0xaa) == 0xac && S(0xe1) == 0xf8;
    assert S(0x1b) == 0xaf && S(0x45) == 0x6e && S(0xb7) == 0xa9 && S(0xb0) == 0xe7;
    assert S(0xa2) == 0x3a && S(0xc7) == 0xc6 && S(0xbd) == 0x7a && S(0x28) == 0x34;
    assert S(0xa8) == 0xc2 && S(0xdc) == 0x86 && S(0x99) == 0xee && S(0xfa) == 0x2d;
  }

  lemma Round7()
    ensures FullRound(ExampleState(6), ExampleKey(7)) == ExampleState(7)
  {
    assert S(0x7f) == 0xd2 && S(0x07) == 0xc5 && S(0x41) == 0x83 && S(0x43) == 0x1a;
    assert S(0xcb) == 0x1f && S(0x4e) == 0x2f && S(0x24) == 0x36 && S(0x3e) == 0xb2;
    assert S(0xc1) == 0x78 && S(0x0c) == 0xfe && S(0x81) == 0x0c && S(0x5d) == 0x4c;
    assert S(0x83) == 0xec && S(0x75) == 0x9d && S(0xd5) == 0x03 && S(0x4c) == 0x29;
  }

  lemma Round8()
    ensures FullRound(ExampleState(7), ExampleKey(8)) == ExampleState(8)
  {
    assert S(0xd6) == 0xf6 && S(0x53) == 0xed && S(0xa4) == 0x49 && S(0x69) == 0xf9;
    assert S(0x6c) == 0x50 && S(0xa0) == 0xe0 && S(0xbc) == 0x65 && S(0x0f) == 0x76;
    assert S(0x5a) == 0xbe && S(0xca) == 0x74 && S(0xab) == 0x62 && S(0x5d) == 0x4c;
    assert S(0xb9) == 0x56 && S(0x6c) == 0x50 && S(0x5e) == 0x58 && S(0x7d) == 0xff;
  }

  lemma Round9()
    ensures FullRound(ExampleState(8), ExampleKey(9)) == ExampleState(9)
  {
    assert S(0x5a) == 0xbe && S(0xa8) == 0xc2 && S(0x58) == 0x6a && S(0x39) == 0x12;
    assert S(0x5f) == 0xcf && S(0xd2) == 0xb5 && S(0x8d) == 0x5d && S(0x7d) == 0xff;
    assert S(0x05) == 0x6b && S(0xe1) == 0xf8 && S(0xa3) == 0x0a && S(0x88) == 0xc4;
    assert S(0x68) == 0x45 && S(0xf3) == 0x0d && S(0xb9) == 0x56 && S(0xc5) == 0xa6;
  }

  lemma Round10()
    ensures FullRound(ExampleState(9), ExampleKey(10)) == ExampleState(10)
  {
    assert S(0x4a) == 0xd6 && S(0x82) == 0x13 && S(0x48) == 0x52 && S(0x51) == 0xd1;
    assert S(0xc5) == 0xa6 && S(0x7e) == 0xf3 && S(0x7e) == 0xf3 && S(0x47) == 0xa0;
    assert S(0x64) == 0x43 && S(0x3d) == 0x27 && S(0xe5) == 0xd9 && S(0x0c) == 0xfe;
    assert S(0x2a) == 0xe5 && S(0xf3) == 0x0d && S(0xe8) == 0x9b && S(0xc9) == 0xdd;
  }

  lemma Round11()
    ensures FullRound(ExampleState(10), ExampleKey(11)) == ExampleState(11)
  {
    assert S(0xc1) == 0x78 && S(0x49) == 0x3b && S(0x07) == 0xc5 && S(0xf6) == 0x42;
    assert S(0xca) == 0x74 && S(0x3b) == 0xe2 && S(0x3a) == 0x80 && S(0xa0) == 0xe0;
    assert S(0x70) == 0x51 && S(0xe9) == 0x1e && S(0xaa) == 0xac && S(0x31) == 0xc7;
    assert S(0x3b) == 0xe2 && S(0x52) == 0x00 && S(0xb5) == 0xd5 && S(0xec) == 0xce;
  }

  lemma Round12()
    ensures FullRound(ExampleState(11), ExampleKey(12)) == ExampleState(12)
  {
    assert S(0x5f) == 0xcf && S(0x9c) == 0xde && S(0x6a) == 0x02 && S(0xbf) == 0x08;
    assert S(0xba) == 0xf4 && S(0xc6) == 0xb4 && S(0x34) == 0x18 && S(0xaa) == 0xac;
    assert S(0x50) == 0x53 && S(0x40) == 0x09 && S(0x9f) == 0xdb && S(0xa7) == 0x5c;
    assert S(0x66) == 0x33 && S(0x67) == 0x85 && S(0x76) == 0x38 && S(0x53) == 0xed;
  }

  lemma Round13()
    ensures FullRound(ExampleState(12), ExampleKey(13)) == ExampleState(13)
  {
    assert S(0x51) == 0xd1 && S(0x66) == 0x33 && S(0x04) == 0xf2 && S(0x95) == 0x2a;
    assert S(0x43) == 0x1a && S(0x53) == 0xed && S(0x95) == 0x2a && S(0x03) == 0x7b;
    assert S(0x14) == 0xfa && S(0xfb) == 0x0f && S(0x86) == 0x44 && S(0xe4) == 0x69;
    assert S(0x01) == 0x7c && S(0x92) == 0x4f && S(0x25) == 0x3f && S(0x21) == 0xfd;
  }

  lemma Round14()
    ensures LastRound(ExampleState(13), ExampleKey(14)) == Encrypted()
  {
    assert S(0x62) == 0xaa && S(0x7b) == 0x21 && S(0xce) == 0x8b && S(0xb9) == 0x56;
    assert S(0x99) == 0xee && S(0x9d) == 0x5e && S(0x5a) == 0xbe && S(0xaa) == 0xac;
    assert S(0xc9) == 0xdd && S(0x45) == 0x6e && S(0xec) == 0xce && S(0xf4) == 0xbf;
    assert S(0x23) == 0x26 && S(0xf5) == 0xe6 && S(0x6d) == 0x3c && S(0xa5) == 0x06;
  }

  lemma Rounds0On(r: nat)
    requires 0 <= r < 4
    ensures ExampleState(r + 1) == FullRound(ExampleState(r), ExampleKey(r + 1))
  {
    match r {
      case 0 => Round1();
      case 1 => Round2();
      case 2 => Round3();
      case _ => Round4();
    }
  }

  lemma Rounds4On(r: nat)
    requires 4 <= r < 7
    ensures ExampleState(r + 1) == FullRound(ExampleState(r), ExampleKey(r + 1))
  {
    match r {
      case 4 => Round5();
      case 5 => Round6();
      case _ => Round7();
    }
  }

  lemma Rounds7On(r: nat)
    requires 7 <= r < 10
    ensures ExampleState(r + 1) == FullRound(ExampleState(r), ExampleKey(r + 1))
  {
    match r {
      case 7 => Round8();
      case 8 => Round9();
      case _ => Round10();
    }
  }

  lemma Rounds10On(r: nat)
    requires 10 <= r < 13
    ensures ExampleState(r + 1) == FullRound(ExampleState(r), ExampleKey(r + 1))
  {
    match r {
      case 10 => Round11();
      case 11 => Round12();
      case _ => Round13();
    }
  }

  lemma AllRounds()
    ensures AesStages().Follow(ExampleKey, ExampleState, 13)
  {
    forall r: nat | r < 13 ensures ExampleState(r + 1) == FullRound(ExampleState(r), ExampleKey(r + 1)) {
      if r < 4 {
        Rounds0On(r);
      } else if r < 7 {
        Rounds4On(r);
      } else if r < 10 {
        Rounds7On(r);
      } else {
        Rounds10On(r);
      }
    }
  }

  lemma Start()
    ensures ExampleState(0) == Add(Plain(), ExampleKey(0))
  {
  }

  // ---------- the whole example ----------

  lemma ExampleKeys(box: Box, k: seq<State>)
    requires box.sub == SubByte && k == RoundKeys(box, KeyCols(UserKey(), 8), 14)
    ensures AreKeys(k, ExampleKey)
  {
    Key0(box);
    Key1(box);
    AllKeys();
    KeysAre(box, KeyCols(UserKey(), 8), ExampleKey, 14, k);
  }

  lemma End(n: nat)
    requires n == 13
    ensures LastRound(ExampleState(n), ExampleKey(n + 1)) == Encrypted()
  {
    Round14();
  }

  lemma ExampleLeads(n: nat)
    requires n == 13
    ensures AesStages().Leads(ExampleKey, ExampleState, Plain(), n, Encrypted())
  {
    Start();
    AllRounds();
    End(n);
  }

  lemma ExampleCipher(l: Layers<State>, k: seq<State>)
    requires AesStages().Of(l) && |k| == 15 && AreKeys(k, ExampleKey)
    ensures l.Cipher(k, Plain()) == Encrypted()
  {
    ExampleLeads(|k| - 2);
    CipherIs(l, AesStages(), k, ExampleKey, ExampleState, Plain(), Encrypted());
  }

  /** The block of the example is not mapped to itself. */
  lemma NotFixed()
    ensures Encrypted() != Plain()
  {
    assert Encrypted().c0.b0 == Byte(0x8e) && Plain().c0.b0 == Byte(0);
  }

  /** The cipher with the round keys of the example gives its ciphertext. */
  lemma KnownAnswer(box: Box, k: seq<State>)
    requires box.sub == SubByte && k == RoundKeys(box, KeyCols(UserKey(), 8), 14)
    ensures Aes(box).Cipher(k, Plain()) == Encrypted()
  {
    ExampleKeys(box, k);
    StagesOfAes(box);
    ExampleCipher(Aes(box), k);
  }

}
