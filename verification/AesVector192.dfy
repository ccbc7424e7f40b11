/**
 The AES-192 example of appendix C.2 of FIPS 197, through the key expansion and every round of the model.
 */
module AesVector192 {
  import opened GaloisField
  import opened ProductCipher
  import opened AesCipher
  import opened AesKeySchedule
  import opened AesCode
  import opened AesSbox
  import opened AesVector

  function UserKey(): (b: seq<Byte>)
    ensures |b| == 24
  {
    [Byte(0x00), Byte(0x01), Byte(0x02), Byte(0x03), Byte(0x04), Byte(0x05), Byte(0x06), Byte(0x07),
     Byte(0x08), Byte(0x09), Byte(0x0a), Byte(0x0b), Byte(0x0c), Byte(0x0d), Byte(0x0e), Byte(0x0f),
     Byte(0x10), Byte(0x11), Byte(0x12), Byte(0x13), Byte(0x14), Byte(0x15), Byte(0x16), Byte(0x17)]
  }

  function Encrypted(): State { Block(0xdda97ca4, 0x864cdfe0, 0x6eaf70a0, 0xec0d7191) }

  /** Round key `r`. */
  function ExampleKey(r: nat): State {
    if r < 6 then
      if r < 3 then
        if r < 1 then
          Block(0x00010203, 0x04050607, 0x08090a0b, 0x0c0d0e0f)
        else
          if r == 1 then Block(0x10111213, 0x14151617, 0x5846f2f9, 0x5c43f4fe)
          else Block(0x544afef5, 0x5847f0fa, 0x4856e2e9, 0x5c43f4fe)
      else
        if r < 4 then
          Block(0x40f949b3, 0x1cbabd4d, 0x48f043b8, 0x10b7b342)
        else
          if r == 4 then Block(0x58e151ab, 0x04a2a555, 0x7effb541, 0x6245080c)
          else Block(0x2ab54bb4, 0x3a02f8f6, 0x62e3a95d, 0x66410c08)
    else
      if r < 9 then
        if r < 7 then
          Block(0xf5018572, 0x97448d7e, 0xbdf1c6ca, 0x87f33e3c)
        else
          if r == 7 then Block(0xe5109761, 0x83519b69, 0x34157c9e, 0xa351f1e0)
          else Block(0x1ea0372a, 0x99530916, 0x7c439e77, 0xff12051e)
      else
        if r < 11 then
          if r == 9 then Block(0xdd7e0e88, 0x7e2fff68, 0x608fc842, 0xf9dcc154)
          else Block(0x859f5f23, 0x7a8d5a3d, 0xc0c02952, 0xbeefd63a)
        else
          if r == 11 then Block(0xde601e78, 0x27bcdf2c, 0xa223800f, 0xd8aeda32)
          else Block(0xa4970a33, 0x1a78dc09, 0xc418c271, 0xe3a41d5d)
  }

  /** The state at the start of round `r + 1`. */
  function ExampleState(r: nat): State {
    if r < 6 then
      if r < 3 then
        if r < 1 then
          Block(0x00102030, 0x40506070, 0x8090a0b0, 0xc0d0e0f0)
        else
          if r == 1 then Block(0x4f637606, 0x43e0aa85, 0xaff8c9d0, 0x41fa0de4)
          else Block(0xcb02818c, 0x17d2af9c, 0x62aa6442, 0x8bb25fd7)
      else
        if r < 4 then
          Block(0xf75c7778, 0xa327c8ed, 0x8cfebfc1, 0xa6c37f53)
        else
          if r == 4 then Block(0x22ffc916, 0xa8147441, 0x6496f19c, 0x64ae2532)
          else Block(0x80121e07, 0x76fd1d8a, 0x8d8c31bc, 0x965d1fee)
    else
      if r < 9 then
        if r < 7 then
          Block(0x671ef1fd, 0x4e2a1e03, 0xdfdcb1ef, 0x3d789b30)
        else
          if r == 7 then Block(0x0c0370d0, 0x0c01e622, 0x166b8acc, 0xd6db3a2c)
          else Block(0x7255dad3, 0x0fb80310, 0xe00d6c6b, 0x40d0527c)
      else
        if r < 10 then
          Block(0xa906b254, 0x968af4e9, 0xb4bdb2d2, 0xf0c44336)
        else
          if r == 10 then Block(0x88ec930e, 0xf5e7e4b6, 0xcc32f4c9, 0x06d29414)
          else Block(0xafb73eeb, 0x1cd1b851, 0x62280f27, 0xfb20d585)
  }

  // ---------- the key expansion ----------

  lemma Key0(box: Box)
    requires box.sub == SubByte
    ensures RoundKey(box, KeyCols(UserKey(), 6), 0) == ExampleKey(0)
  {
  }

  lemma Key1(box: Box)
    requires box.sub == SubByte
    ensures RoundKey(box, KeyCols(UserKey(), 6), 1) == ExampleKey(1)
  {
    Key0(box);
    assert S(0x14) == 0xfa && S(0x15) == 0x59 && S(0x16) == 0x47 && S(0x17) == 0xf0;
    assert Expand(box, KeyCols(UserKey(), 6), 6) == Column(0x5846f2f9);
    assert Expand(box, KeyCols(UserKey(), 6), 7) == Column(0x5c43f4fe);
  }

  lemma Key2()
    ensures ExampleKey(2) == NextKey(SubByte, 6, ExampleKey(0), ExampleKey(1), 2)
  {
  }

  lemma Key3()
    ensures ExampleKey(3) == NextKey(SubByte, 6, ExampleKey(1), ExampleKey(2), 3)
  {
    assert S(0x5c) == 0x4a && S(0x43) == 0x1a && S(0xf4) == 0xbf && S(0xfe) == 0xbb;
  }

  lemma Key4()
    ensures ExampleKey(4) == NextKey(SubByte, 6, ExampleKey(2), ExampleKey(3), 4)
  {
    assert S(0x04) == 0xf2 && S(0xa2) == 0x3a && S(0xa5) == 0x06 && S(0x55) == 0xfc;
  }

  lemma Key5()
    ensures ExampleKey(5) == NextKey(SubByte, 6, ExampleKey(3), ExampleKey(4), 5)
  {
  }

  lemma Key6()
    ensures ExampleKey(6) == NextKey(SubByte, 6, ExampleKey(4), ExampleKey(5), 6)
  {
    assert S(0x66) == 0x33 && S(0x41) == 0x83 && S(0x0c) == 0xfe && S(0x08) == 0x30;
  }

  lemma Key7()
    ensures ExampleKey(7) == NextKey(SubByte, 6, ExampleKey(5), ExampleKey(6), 7)
  {
    assert S(0x83) == 0xec && S(0x51) == 0xd1 && S(0x9b) == 0x14 && S(0x69) == 0xf9;
  }

  lemma Key8()
    ensures ExampleKey(8) == NextKey(SubByte, 6, ExampleKey(6), ExampleKey(7), 8)
  {
  }

  lemma Key9()
    ensures ExampleKey(9) == NextKey(SubByte, 6, ExampleKey(7), ExampleKey(8), 9)
  {
    assert S(0xff) == 0x16 && S(0x12) == 0xc9 && S(0x05) == 0x6b && S(0x1e) == 0x72;
  }

  lemma Key10()
    ensures ExampleKey(10) == NextKey(SubByte, 6, ExampleKey(8), ExampleKey(9), 10)
  {
    assert S(0x7a) == 0xda && S(0x8d) == 0x5d && S(0x5a) == 0xbe && S(0x3d) == 0x27;
  }

  lemma Key11()
    ensures ExampleKey(11) == NextKey(SubByte, 6, ExampleKey(9), ExampleKey(10), 11)
  {
  }

  lemma Key12()
    ensures ExampleKey(12) == NextKey(SubByte, 6, ExampleKey(10), ExampleKey(11), 12)
  {
    assert S(0xd8) == 0x61 && S(0xae) == 0xe4 && S(0xda) == 0x57 && S(0x32) == 0x23;
  }

  lemma Keys2On(r: nat)
    requires 2 <= r < 6
    ensures ExampleKey(r) == NextKey(SubByte, 6, ExampleKey(r - 2), ExampleKey(r - 1), r)
  {
    match r {
      case 2 => Key2();
      case 3 => Key3();
      case 4 => Key4();
      case _ => Key5();
    }
  }

  lemma Keys6On(r: nat)
    requires 6 <= r < 10
    ensures ExampleKey(r) == NextKey(SubByte, 6, ExampleKey(r - 2), ExampleKey(r - 1), r)
  {
    match r {
      case 6 => Key6();
      case 7 => Key7();
      case 8 => Key8();
      case _ => Key9();
    }
  }

  lemma Keys10On(r: nat)
    requires 10 <= r < 13
    ensures ExampleKey(r) == NextKey(SubByte, 6, ExampleKey(r - 2), ExampleKey(r - 1), r)
  {
    match r {
      case 10 => Key10();
      case 11 => Key11();
      case _ => Key12();
    }
  }

  lemma AllKeys()
    ensures KeysFollow(SubByte, 6, ExampleKey, 12)
  {
    forall r: nat | 2 <= r <= 12
      ensures ExampleKey(r) == NextKey(SubByte, 6, ExampleKey(r - 2), ExampleKey(r - 1), r)
    {
      if r < 6 {
        Keys2On(r);
      } else if r < 10 {
        Keys6On(r);
      } else {
        Keys10On(r);
      }
    }
  }

  // ---------- the rounds ----------

  lemma Round1()
    ensures FullRound(ExampleState(0), ExampleKey(1)) == ExampleState(1)
  {
    assert S(0x00) == 0x63 && S(0x10) == 0xca && S(0x20) == 0xb7 && S(0x30) == 0x04;
    assert S(0x40) == 0x09 && S(0x50) == 0x53 && S(0x60) == 0xd0 && S(0x70) == 0x51;
    assert S(0x80) == 0xcd && S(0x90) == 0x60 && S(0xa0) == 0xe0 && S(0xb0) == 0xe7;
    assert S(0xc0) == 0xba && S(0xd0) == 0x70 && S(0xe0) == 0xe1 && S(0xf0) == 0x8c;
  }

  lemma Round2()
    ensures FullRound(ExampleState(1), ExampleKey(2)) == ExampleState(2)
  {
    assert S(0x4f) == 0x84 && S(0x63) == 0xfb && S(0x76) == 0x38 && S(0x06) == 0x6f;
    assert S(0x43) == 0x1a && S(0xe0) == 0xe1 && S(0xaa) == 0xac && S(0x85) == 0x97;
    assert S(0xaf) == 0x79 && S(0xf8) == 0x41 && S(0xc9) == 0xdd && S(0xd0) == 0x70;
    assert S(0x41) == 0x83 && S(0xfa) == 0x2d && S(0x0d) == 0xd7 && S(0xe4) == 0x69;
  }

  lemma Round3()
    ensures FullRound(ExampleState(2), ExampleKey(3)) == ExampleState(3)
  {
    assert S(0xcb) == 0x1f && S(0x02) == 0x77 && S(0x81) == 0x0c && S(0x8c) == 0x64;
    assert S(0x17) == 0xf0 && S(0xd2) == 0xb5 && S(0xaf) == 0x79 && S(0x9c) == 0xde;
    assert S(0x62) == 0xaa && S(0xaa) == 0xac && S(0x64) == 0x43 && S(0x42) == 0x2c;
    assert S(0x8b) == 0x3d && S(0xb2) == 0x37 && S(0x5f) == 0xcf && S(0xd7) == 0x0e;
  }

  lemma Round4()
    ensures FullRound(ExampleState(3), ExampleKey(4)) == ExampleState(4)
  {
    assert S(0xf7) == 0x68 && S(0x5c) == 0x4a && S(0x77) == 0xf5 && S(0x78) == 0xbc;
    assert S(0xa3) == 0x0a && S(0x27) == 0xcc && S(0xc8) == 0xe8 && S(0xed) == 0x55;
    assert S(0x8c) == 0x64 && S(0xfe) == 0xbb && S(0xbf) == 0x08 && S(0xc1) == 0x78;
    assert S(0xa6) == 0x24 && S(0xc3) == 0x2e && S(0x7f) == 0xd2 && S(0x53) == 0xed;
  }

  lemma Round5()
    ensures FullRound(ExampleState(4), ExampleKey(5)) == ExampleState(5)
  {
    assert S(0x22) == 0x93 && S(0xff) == 0x16 && S(0xc9) == 0xdd && S(0x16) == 0x47;
    assert S(0xa8) == 0xc2 && S(0x14) == 0xfa && S(0x74) == 0x92 && S(0x41) == 0x83;
    assert S(0x64) == 0x43 && S(0x96) == 0x90 && S(0xf1) == 0xa1 && S(0x9c) == 0xde;
    assert S(0x64) == 0x43 && S(0xae) == 0xe4 && S(0x25) == 0x3f && S(0x32) == 0x23;
  }

  lemma Round6()
    ensures FullRound(ExampleState(5), ExampleKey(6)) == ExampleState(6)
  {
    assert S(0x80) == 0xcd && S(0x12) == 0xc9 && S(0x1e) == 0x72 && S(0x07) == 0xc5;
    assert S(0x76) == 0x38 && S(0xfd) == 0x54 && S(0x1d) == 0xa4 && S(0x8a) == 0x7e;
    assert S(0x8d) == 0x5d && S(0x8c) == 0x64 && S(0x31) == 0xc7 && S(0xbc) == 0x65;
    assert S(0x96) == 0x90 && S(0x5d) == 0x4c && S(0x1f) == 0xc0 && S(0xee) == 0x28;
  }

  lemma Round7()
    ensures FullRound(ExampleState(6), ExampleKey(7)) == ExampleState(7)
  {
    assert S(0x67) == 0x85 && S(0x1e) == 0x72 && S(0xf1) == 0xa1 && S(0xfd) == 0x54;
    assert S(0x4e) == 0x2f && S(0x2a) == 0xe5 && S(0x1e) == 0x72 && S(0x03) == 0x7b;
    assert S(0xdf) == 0x9e && S(0xdc) == 0x86 && S(0xb1) == 0xc8 && S(0xef) == 0xdf;
    assert S(0x3d) == 0x27 && S(0x78) == 0xbc && S(0x9b) == 0x14 && S(0x30) == 0x04;
  }

  lemma Round8()
    ensures FullRound(ExampleState(7), ExampleKey(8)) == ExampleState(8)
  {
    assert S(0x0c) == 0xfe && S(0x03) == 0x7b && S(0x70) == 0x51 && S(0xd0) == 0x70;
    assert S(0x0c) == 0xfe && S(0x01) == 0x7c && S(0xe6) == 0x8e && S(0x22) == 0x93;
    assert S(0x16) == 0x47 && S(0x6b) == 0x7f && S(0x8a) == 0x7e && S(0xcc) == 0x4b;
    assert S(0xd6) == 0xf6 && S(0xdb) == 0xb9 && S(0x3a) == 0x80 && S(0x2c) == 0x71;
  }

  lemma Round9()
    ensures FullRound(ExampleState(8), ExampleKey(9)) == ExampleState(9)
  {
    assert S(0x72) == 0x40 && S(0x55) == 0xfc && S(0xda) == 0x57 && S(0xd3) == 0x66;
    assert S(0x0f) == 0x76 && S(0xb8) == 0x6c && S(0x03) == 0x7b && S(0x10) == 0xca;
    assert S(0xe0) == 0xe1 && S(0x0d) == 0xd7 && S(0x6c) == 0x50 && S(0x6b) == 0x7f;
    assert S(0x40) == 0x09 && S(0xd0) == 0x70 && S(0x52) == 0x00 && S(0x7c) == 0x10;
  }

  lemma Round10()
    ensures FullRound(ExampleState(9), ExampleKey(10)) == ExampleState(10)
  {
    assert S(0xa9) == 0xd3 && S(0x06) == 0x6f && S(0xb2) == 0x37 && S(0x54) == 0x20;
    assert S(0x96) == 0x90 && S(0x8a) == 0x7e && S(0xf4) == 0xbf && S(0xe9) == 0x1e;
    assert S(0xb4) == 0x8d && S(0xbd) == 0x7a && S(0xb2) == 0x37 && S(0xd2) == 0xb5;
    assert S(0xf0) == 0x8c && S(0xc4) == 0x1c && S(0x43) == 0x1a && S(0x36) == 0x05;
  }

  lemma Round11()
    ensures FullRound(ExampleState(10), ExampleKey(11)) == ExampleState(11)
  {
    assert S(0x88) == 0xc4 && S(0xec) == 0xce && S(0x93) == 0xdc && S(0x0e) == 0xab;
    assert S(0xf5) == 0xe6 && S(0xe7) == 0x94 && S(0xe4) == 0x69 && S(0xb6) == 0x4e;
    assert S(0xcc) == 0x4b && S(0x32) == 0x23 && S(0xf4) == 0xbf && S(0xc9) == 0xdd;
    assert S(0x06) == 0x6f && S(0xd2) == 0xb5 && S(0x94) == 0x22 && S(0x14) == 0xfa;
  }

  lemma Round12()
    ensures LastRound(ExampleState(11), ExampleKey(12)) == Encrypted()
  {
    assert S(0xaf) == 0x79 && S(0xb7) == 0xa9 && S(0x3e) == 0xb2 && S(0xeb) == 0xe9;
    assert S(0x1c) == 0x9c && S(0xd1) == 0x3e && S(0xb8) == 0x6c && S(0x51) == 0xd1;
    assert S(0x62) == 0xaa && S(0x28) == 0x34 && S(0x0f) == 0x76 && S(0x27) == 0xcc;
    assert S(0xfb) == 0x0f && S(0x20) == 0xb7 && S(0xd5) == 0x03 && S(0x85) == 0x97;
  }

  lemma Rounds0On(r: nat)
    requires 0 <= r < 4
    ensures ExampleState(r + 1) == FullRound(ExampleState(r), ExampleKey(r + 1))
  {
    match r {
      case 0 => Round1();
      case 1 => Round2();
      case 2 => Round3();
      case _ => Round4();
    }
  }

  lemma Rounds4On(r: nat)
    requires 4 <= r < 8
    ensures ExampleState(r + 1) == FullRound(ExampleState(r), ExampleKey(r + 1))
  {
    match r {
      case 4 => Round5();
      case 5 => Round6();
      case 6 => Round7();
      case _ => Round8();
    }
  }

  lemma Rounds8On(r: nat)
    requires 8 <= r < 11
    ensures ExampleState(r + 1) == FullRound(ExampleState(r), ExampleKey(r + 1))
  {
    match r {
      case 8 => Round9();
      case 9 => Round10();
      case _ => Round11();
    }
  }

  lemma AllRounds()
    ensures AesStages().Follow(ExampleKey, ExampleState, 11)
  {
    forall r: nat | r < 11 ensures ExampleState(r + 1) == FullRound(ExampleState(r), ExampleKey(r + 1)) {
      if r < 4 {
        Rounds0On(r);
      } else if r < 8 {
        Rounds4On(r);
      } else {
        Rounds8On(r);
      }
    }
  }

  lemma Start()
    ensures ExampleState(0) == Add(Plain(), ExampleKey(0))
  {
  }

  // ---------- the whole example ----------

  lemma ExampleKeys(box: Box, k: seq<State>)
    requires box.sub == SubByte && k == RoundKeys(box, KeyCols(UserKey(), 6), 12)
    ensures AreKeys(k, ExampleKey)
  {
    Key0(box);
    Key1(box);
    AllKeys();
    KeysAre(box, KeyCols(UserKey(), 6), ExampleKey, 12, k);
  }

  lemma End(n: nat)
    requires n == 11
    ensures LastRound(ExampleState(n), ExampleKey(n + 1)) == Encrypted()
  {
    Round12();
  }

  lemma ExampleLeads(n: nat)
    requires n == 11
    ensures AesStages().Leads(ExampleKey, ExampleState, Plain(), n, Encrypted())
  {
    Start();
    AllRounds();
    End(n);
  }

  lemma ExampleCipher(l: Layers<State>, k: seq<State>)
    requires AesStages().Of(l) && |k| == 13 && AreKeys(k, ExampleKey)
    ensures l.Cipher(k, Plain()) == Encrypted()
  {
    ExampleLeads(|k| - 2);
    CipherIs(l, AesStages(), k, ExampleKey, ExampleState, Plain(), Encrypted());
  }

  /** The block of the example is not mapped to itself. */
  lemma NotFixed()
    ensures Encrypted() != Plain()
  {
    assert Encrypted().c0.b0 == Byte(0xdd) && Plain().c0.b0 == Byte(0);
  }

  /** The cipher with the round keys of the example gives its ciphertext. */
  lemma KnownAnswer(box: Box, k: seq<State>)
    requires box.sub == SubByte && k == RoundKeys(box, KeyCols(UserKey(), 6), 12)
    ensures Aes(box).Cipher(k, Plain()) == Encrypted()
  {
    ExampleKeys(box, k);
    StagesOfAes(box);
    ExampleCipher(Aes(box), k);
  }

}
