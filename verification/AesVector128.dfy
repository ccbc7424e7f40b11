/**
 The AES-128 example of appendix C.1 of FIPS 197, through the key expansion and every round of the model.
 */
module AesVector128 {
  import opened GaloisField
  import opened ProductCipher
  import opened AesCipher
  import opened AesKeySchedule
  import opened AesCode
  import opened AesSbox
  import opened AesVector

  function UserKey(): (b: seq<Byte>)
    ensures |b| == 16
  {
    [Byte(0x00), Byte(0x01), Byte(0x02), Byte(0x03), Byte(0x04), Byte(0x05), Byte(0x06), Byte(0x07),
     Byte(0x08), Byte(0x09), Byte(0x0a), Byte(0x0b), Byte(0x0c), Byte(0x0d), Byte(0x0e), Byte(0x0f)]
  }

  function Encrypted(): State { Block(0x69c4e0d8, 0x6a7b0430, 0xd8cdb780, 0x70b4c55a) }

  /** Round key `r`. */
  function ExampleKey(r: nat): State {
    if r < 5 then
      if r < 2 then
        if r == 0 then Block(0x00010203, 0x04050607, 0x08090a0b, 0x0c0d0e0f)
        else Block(0xd6aa74fd, 0xd2af72fa, 0xdaa678f1, 0xd6ab76fe)
      else
        if r < 3 then
          Block(0xb692cf0b, 0x643dbdf1, 0xbe9bc500, 0x6830b3fe)
        else
          if r == 3 then Block(0xb6ff744e, 0xd2c2c9bf, 0x6c590cbf, 0x0469bf41)
          else Block(0x47f7f7bc, 0x95353e03, 0xf96c32bc, 0xfd058dfd)
    else
      if r < 8 then
        if r < 6 then
          Block(0x3caaa3e8, 0xa99f9deb, 0x50f3af57, 0xadf622aa)
        else
          if r == 6 then Block(0x5e390f7d, 0xf7a69296, 0xa7553dc1, 0x0aa31f6b)
          else Block(0x14f9701a, 0xe35fe28c, 0x440adf4d, 0x4ea9c026)
      else
        if r < 9 then
          Block(0x47438735, 0xa41c65b9, 0xe016baf4, 0xaebf7ad2)
        else
          if r == 9 then Block(0x549932d1, 0xf0855768, 0x1093ed9c, 0xbe2c974e)
          else Block(0x13111d7f, 0xe3944a17, 0xf307a78b, 0x4d2b30c5)
  }

  /** The state at the start of round `r + 1`. */
  function ExampleState(r: nat): State {
    if r < 5 then
      if r < 2 then
        if r == 0 then Block(0x00102030, 0x40506070, 0x8090a0b0, 0xc0d0e0f0)
        else Block(0x89d810e8, 0x855ace68, 0x2d1843d8, 0xcb128fe4)
      else
        if r < 3 then
          Block(0x4915598f, 0x55e5d7a0, 0xdaca94fa, 0x1f0a63f7)
        else
          if r == 3 then Block(0xfa636a28, 0x25b339c9, 0x40668a31, 0x57244d17)
          else Block(0x24724023, 0x6966b3fa, 0x6ed27532, 0x88425b6c)
    else
      if r < 7 then
        if r == 5 then Block(0xc81677bc, 0x9b7ac93b, 0x25027992, 0xb0261996)
        else Block(0xc62fe109, 0xf75eedc3, 0xcc79395d, 0x84f9cf5d)
      else
        if r < 8 then
          Block(0xd1876c0f, 0x79c4300a, 0xb45594ad, 0xd66ff41f)
        else
          if r == 8 then Block(0xfde3bad2, 0x05e5d0d7, 0x3547964e, 0xf1fe37f1)
          else Block(0xbd6e7c3d, 0xf2b5779e, 0x0b61216e, 0x8b10b689)
  }

  // ---------- the key expansion ----------

  lemma Key0(box: Box)
    requires box.sub == SubByte
    ensures RoundKey(box, KeyCols(UserKey(), 4), 0) == ExampleKey(0)
  {
  }

  lemma Key1(box: Box)
    requires box.sub == SubByte
    ensures RoundKey(box, KeyCols(UserKey(), 4), 1) == ExampleKey(1)
  {
    Key0(box);
    assert S(0x0c) == 0xfe && S(0x0d) == 0xd7 && S(0x0e) == 0xab && S(0x0f) == 0x76;
    assert Expand(box, KeyCols(UserKey(), 4), 4) == Column(0xd6aa74fd);
    assert Expand(box, KeyCols(UserKey(), 4), 5) == Column(0xd2af72fa);
    assert Expand(box, KeyCols(UserKey(), 4), 6) == Column(0xdaa678f1);
    assert Expand(box, KeyCols(UserKey(), 4), 7) == Column(0xd6ab76fe);
  }

  lemma Key2()
    ensures ExampleKey(2) == NextKey(SubByte, 4, ExampleKey(0), ExampleKey(1), 2)
  {
    assert S(0xd6) == 0xf6 && S(0xab) == 0x62 && S(0x76) == 0x38 && S(0xfe) == 0xbb;
  }

  lemma Key3()
    ensures ExampleKey(3) == NextKey(SubByte, 4, ExampleKey(1), ExampleKey(2), 3)
  {
    assert S(0x68) == 0x45 && S(0x30) == 0x04 && S(0xb3) == 0x6d && S(0xfe) == 0xbb;
  }

  lemma Key4()
    ensures ExampleKey(4) == NextKey(SubByte, 4, ExampleKey(2), ExampleKey(3), 4)
  {
    assert S(0x04) == 0xf2 && S(0x69) == 0xf9 && S(0xbf) == 0x08 && S(0x41) == 0x83;
  }

  lemma Key5()
    ensures ExampleKey(5) == NextKey(SubByte, 4, ExampleKey(3), ExampleKey(4), 5)
  {
    assert S(0xfd) == 0x54 && S(0x05) == 0x6b && S(0x8d) == 0x5d && S(0xfd) == 0x54;
  }

  lemma Key6()
    ensures ExampleKey(6) == NextKey(SubByte, 4, ExampleKey(4), ExampleKey(5), 6)
  {
    assert S(0xad) == 0x95 && S(0xf6) == 0x42 && S(0x22) == 0x93 && S(0xaa) == 0xac;
  }

  lemma Key7()
    ensures ExampleKey(7) == NextKey(SubByte, 4, ExampleKey(5), ExampleKey(6), 7)
  {
    assert S(0x0a) == 0x67 && S(0xa3) == 0x0a && S(0x1f) == 0xc0 && S(0x6b) == 0x7f;
  }

  lemma Key8()
    ensures ExampleKey(8) == NextKey(SubByte, 4, ExampleKey(6), ExampleKey(7), 8)
  {
    assert S(0x4e) == 0x2f && S(0xa9) == 0xd3 && S(0xc0) == 0xba && S(0x26) == 0xf7;
  }

  lemma Key9()
    ensures ExampleKey(9) == NextKey(SubByte, 4, ExampleKey(7), ExampleKey(8), 9)
  {
    assert S(0xae) == 0xe4 && S(0xbf) == 0x08 && S(0x7a) == 0xda && S(0xd2) == 0xb5;
  }

  lemma Key10()
    ensures ExampleKey(10) == NextKey(SubByte, 4, ExampleKey(8), ExampleKey(9), 10)
  {
    assert S(0xbe) == 0xae && S(0x2c) == 0x71 && S(0x97) == 0x88 && S(0x4e) == 0x2f;
  }

  lemma Keys2On(r: nat)
    requires 2 <= r < 5
    ensures ExampleKey(r) == NextKey(SubByte, 4, ExampleKey(r - 2), ExampleKey(r - 1), r)
  {
    match r {
      case 2 => Key2();
      case 3 => Key3();
      case _ => Key4();
    }
  }

  lemma Keys5On(r: nat)
    requires 5 <= r < 8
    ensures ExampleKey(r) == NextKey(SubByte, 4, ExampleKey(r - 2), ExampleKey(r - 1), r)
  {
    match r {
      case 5 => Key5();
      case 6 => Key6();
      case _ => Key7();
    }
  }

  lemma Keys8On(r: nat)
    requires 8 <= r < 11
    ensures ExampleKey(r) == NextKey(SubByte, 4, ExampleKey(r - 2), ExampleKey(r - 1), r)
  {
    match r {
      case 8 => Key8();
      case 9 => Key9();
      case _ => Key10();
    }
  }

  lemma AllKeys()
    ensures KeysFollow(SubByte, 4, ExampleKey, 10)
  {
    forall r: nat | 2 <= r <= 10
      ensures ExampleKey(r) == NextKey(SubByte, 4, ExampleKey(r - 2), ExampleKey(r - 1), r)
    {
      if r < 5 {
        Keys2On(r);
      } else if r < 8 {
        Keys5On(r);
      } else {
        Keys8On(r);
      }
    }
  }

  // ---------- the rounds ----------

  lemma Round1()
    ensures FullRound(ExampleState(0), ExampleKey(1)) == ExampleState(1)
  {
    assert S(0x00) == 0x63 && S(0x10) == 0xca && S(0x20) == 0xb7 && S(0x30) == 0x04;
    assert S(0x40) == 0x09 && S(0x50) == 0x53 && S(0x60) == 0xd0 && S(0x70) == 0x51;
    assert S(0x80) == 0xcd && S(0x90) == 0x60 && S(0xa0) == 0xe0 && S(0xb0) == 0xe7;
    assert S(0xc0) == 0xba && S(0xd0) == 0x70 && S(0xe0) == 0xe1 && S(0xf0) == 0x8c;
  }

  lemma Round2()
    ensures FullRound(ExampleState(1), ExampleKey(2)) == ExampleState(2)
  {
    assert S(0x89) == 0xa7 && S(0xd8) == 0x61 && S(0x10) == 0xca && S(0xe8) == 0x9b;
    assert S(0x85) == 0x97 && S(0x5a) == 0xbe && S(0xce) == 0x8b && S(0x68) == 0x45;
    assert S(0x2d) == 0xd8 && S(0x18) == 0xad && S(0x43) == 0x1a && S(0xd8) == 0x61;
    assert S(0xcb) == 0x1f && S(0x12) == 0xc9 && S(0x8f) == 0x73 && S(0xe4) == 0x69;
  }

  lemma Round3()
    ensures FullRound(ExampleState(2), ExampleKey(3)) == ExampleState(3)
  {
    assert S(0x49) == 0x3b && S(0x15) == 0x59 && S(0x59) == 0xcb && S(0x8f) == 0x73;
    assert S(0x55) == 0xfc && S(0xe5) == 0xd9 && S(0xd7) == 0x0e && S(0xa0) == 0xe0;
    assert S(0xda) == 0x57 && S(0xca) == 0x74 && S(0x94) == 0x22 && S(0xfa) == 0x2d;
    assert S(0x1f) == 0xc0 && S(0x0a) == 0x67 && S(0x63) == 0xfb && S(0xf7) == 0x68;
  }

  lemma Round4()
    ensures FullRound(ExampleState(3), ExampleKey(4)) == ExampleState(4)
  {
    assert S(0xfa) == 0x2d && S(0x63) == 0xfb && S(0x6a) == 0x02 && S(0x28) == 0x34;
    assert S(0x25) == 0x3f && S(0xb3) == 0x6d && S(0x39) == 0x12 && S(0xc9) == 0xdd;
    assert S(0x40) == 0x09 && S(0x66) == 0x33 && S(0x8a) == 0x7e && S(0x31) == 0xc7;
    assert S(0x57) == 0x5b && S(0x24) == 0x36 && S(0x4d) == 0xe3 && S(0x17) == 0xf0;
  }

  lemma Round5()
    ensures FullRound(ExampleState(4), ExampleKey(5)) == ExampleState(5)
  {
    assert S(0x24) == 0x36 && S(0x72) == 0x40 && S(0x40) == 0x09 && S(0x23) == 0x26;
    assert S(0x69) == 0xf9 && S(0x66) == 0x33 && S(0xb3) == 0x6d && S(0xfa) == 0x2d;
    assert S(0x6e) == 0x9f && S(0xd2) == 0xb5 && S(0x75) == 0x9d && S(0x32) == 0x23;
    assert S(0x88) == 0xc4 && S(0x42) == 0x2c && S(0x5b) == 0x39 && S(0x6c) == 0x50;
  }

  lemma Round6()
    ensures FullRound(ExampleState(5), ExampleKey(6)) == ExampleState(6)
  {
    assert S(0xc8) == 0xe8 && S(0x16) == 0x47 && S(0x77) == 0xf5 && S(0xbc) == 0x65;
    assert S(0x9b) == 0x14 && S(0x7a) == 0xda && S(0xc9) == 0xdd && S(0x3b) == 0xe2;
    assert S(0x25) == 0x3f && S(0x02) == 0x77 && S(0x79) == 0xb6 && S(0x92) == 0x4f;
    assert S(0xb0) == 0xe7 && S(0x26) == 0xf7 && S(0x19) == 0xd4 && S(0x96) == 0x90;
  }

  lemma Round7()
    ensures FullRound(ExampleState(6), ExampleKey(7)) == ExampleState(7)
  {
    assert S(0xc6) == 0xb4 && S(0x2f) == 0x15 && S(0xe1) == 0xf8 && S(0x09) == 0x01;
    assert S(0xf7) == 0x68 && S(0x5e) == 0x58 && S(0xed) == 0x55 && S(0xc3) == 0x2e;
    assert S(0xcc) == 0x4b && S(0x79) == 0xb6 && S(0x39) == 0x12 && S(0x5d) == 0x4c;
    assert S(0x84) == 0x5f && S(0xf9) == 0x99 && S(0xcf) == 0x8a && S(0x5d) == 0x4c;
  }

  lemma Round8()
    ensures FullRound(ExampleState(7), ExampleKey(8)) == ExampleState(8)
  {
    assert S(0xd1) == 0x3e && S(0x87) == 0x17 && S(0x6c) == 0x50 && S(0x0f) == 0x76;
    assert S(0x79) == 0xb6 && S(0xc4) == 0x1c && S(0x30) == 0x04 && S(0x0a) == 0x67;
    assert S(0xb4) == 0x8d && S(0x55) == 0xfc && S(0x94) == 0x22 && S(0xad) == 0x95;
    assert S(0xd6) == 0xf6 && S(0x6f) == 0xa8 && S(0xf4) == 0xbf && S(0x1f) == 0xc0;
  }

  lemma Round9()
    ensures FullRound(ExampleState(8), ExampleKey(9)) == ExampleState(9)
  {
    assert S(0xfd) == 0x54 && S(0xe3) == 0x11 && S(0xba) == 0xf4 && S(0xd2) == 0xb5;
    assert S(0x05) == 0x6b && S(0xe5) == 0xd9 && S(0xd0) == 0x70 && S(0xd7) == 0x0e;
    assert S(0x35) == 0x96 && S(0x47) == 0xa0 && S(0x96) == 0x90 && S(0x4e) == 0x2f;
    assert S(0xf1) == 0xa1 && S(0xfe) == 0xbb && S(0x37) == 0x9a && S(0xf1) == 0xa1;
  }

  lemma Round10()
    ensures LastRound(ExampleState(9), ExampleKey(10)) == Encrypted()
  {
    assert S(0xbd) == 0x7a && S(0x6e) == 0x9f && S(0x7c) == 0x10 && S(0x3d) == 0x27;
    assert S(0xf2) == 0x89 && S(0xb5) == 0xd5 && S(0x77) == 0xf5 && S(0x9e) == 0x0b;
    assert S(0x0b) == 0x2b && S(0x61) == 0xef && S(0x21) == 0xfd && S(0x6e) == 0x9f;
    assert S(0x8b) == 0x3d && S(0x10) == 0xca && S(0xb6) == 0x4e && S(0x89) == 0xa7;
  }

  lemma Rounds0On(r: nat)
    requires 0 <= r < 3
    ensures ExampleState(r + 1) == FullRound(ExampleState(r), ExampleKey(r + 1))
  {
    match r {
      case 0 => Round1();
      case 1 => Round2();
      case _ => Round3();
    }
  }

  lemma Rounds3On(r: nat)
    requires 3 <= r < 6
    ensures ExampleState(r + 1) == FullRound(ExampleState(r), ExampleKey(r + 1))
  {
    match r {
      case 3 => Round4();
      case 4 => Round5();
      case _ => Round6();
    }
  }

  lemma Rounds6On(r: nat)
    requires 6 <= r < 9
    ensures ExampleState(r + 1) == FullRound(ExampleState(r), ExampleKey(r + 1))
  {
    match r {
      case 6 => Round7();
      case 7 => Round8();
      case _ => Round9();
    }
  }

  lemma AllRounds()
    ensures AesStages().Follow(ExampleKey, ExampleState, 9)
  {
    forall r: nat | r < 9 ensures ExampleState(r + 1) == FullRound(ExampleState(r), ExampleKey(r + 1)) {
      if r < 3 {
        Rounds0On(r);
      } else if r < 6 {
        Rounds3On(r);
      } else {
        Rounds6On(r);
      }
    }
  }

  lemma Start()
    ensures ExampleState(0) == Add(Plain(), ExampleKey(0))
  {
  }

  // ---------- the whole example ----------

  lemma ExampleKeys(box: Box, k: seq<State>)
    requires box.sub == SubByte && k == RoundKeys(box, KeyCols(UserKey(), 4), 10)
    ensures AreKeys(k, ExampleKey)
  {
    Key0(box);
    Key1(box);
    AllKeys();
    KeysAre(box, KeyCols(UserKey(), 4), ExampleKey, 10, k);
  }

  lemma End(n: nat)
    requires n == 9
    ensures LastRound(ExampleState(n), ExampleKey(n + 1)) == Encrypted()
  {
    Round10();
  }

  lemma ExampleLeads(n: nat)
    requires n == 9
    ensures AesStages().Leads(ExampleKey, ExampleState, Plain(), n, Encrypted())
  {
    Start();
    AllRounds();
    End(n);
  }

  lemma ExampleCipher(l: Layers<State>, k: seq<State>)
    requires AesStages().Of(l) && |k| == 11 && AreKeys(k, ExampleKey)
    ensures l.Cipher(k, Plain()) == Encrypted()
  {
    ExampleLeads(|k| - 2);
    CipherIs(l, AesStages(), k, ExampleKey, ExampleState, Plain(), Encrypted());
  }

  /** The block of the example is not mapped to itself. */
  lemma NotFixed()
    ensures Encrypted() != Plain()
  {
    assert Encrypted().c0.b0 == Byte(0x69) && Plain().c0.b0 == Byte(0);
  }

  /** The cipher with the round keys of the example gives its ciphertext. */
  lemma KnownAnswer(box: Box, k: seq<State>)
    requires box.sub == SubByte && k == RoundKeys(box, KeyCols(UserKey(), 4), 10)
    ensures Aes(box).Cipher(k, Plain()) == Encrypted()
  {
    ExampleKeys(box, k);
    StagesOfAes(box);
    ExampleCipher(Aes(box), k);
  }

}
