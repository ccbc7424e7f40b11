/**
 The S-box of AES and its inverse, the bytes repeated in the tables Te4 and Td4 of aes.c.
 */
module AesSbox {
  import opened GaloisField
  import opened AesCipher

  /** Byte `i` of a row of sixteen. */
  function Pick(row: bv128, i: bv7): bv8
    requires i < 16
  {
    ((row >> (120 - 8 * i)) & 0xff) as bv8
  }

  /** Sixteen entries of the S-box, for inputs with high nibble `h`. */
  function Row(h: bv4): bv128 {
    if h < 8 then
      if h < 4 then
        if h < 2 then
          if h == 0 then 0x637c777b_f26b6fc5_3001672b_fed7ab76 else 0xca82c97d_fa5947f0_add4a2af_9ca472c0
        else
          if h == 2 then 0xb7fd9326_363ff7cc_34a5e5f1_71d83115 else 0x04c723c3_1896059a_071280e2_eb27b275
      else
        if h < 6 then
          if h == 4 then 0x09832c1a_1b6e5aa0_523bd6b3_29e32f84 else 0x53d100ed_20fcb15b_6acbbe39_4a4c58cf
        else
          if h == 6 then 0xd0efaafb_434d3385_45f9027f_503c9fa8 else 0x51a3408f_929d38f5_bcb6da21_10fff3d2
    else
      if h < 12 then
        if h < 10 then
          if h == 8 then 0xcd0c13ec_5f974417_c4a77e3d_645d1973 else 0x60814fdc_222a9088_46eeb814_de5e0bdb
        else
          if h == 10 then 0xe0323a0a_4906245c_c2d3ac62_9195e479 else 0xe7c8376d_8dd54ea9_6c56f4ea_657aae08
      else
        if h < 14 then
          if h == 12 then 0xba78252e_1ca6b4c6_e8dd741f_4bbd8b8a else 0x703eb566_4803f60e_613557b9_86c11d9e
        else
          if h == 14 then 0xe1f89811_69d98e94_9b1e87e9_ce5528df else 0x8ca1890d_bfe64268_41992d0f_b054bb16
  }

  function S(x: bv8): bv8 { Pick(Row((x >> 4) as bv4), (x & 15) as bv7) }

  /** Sixteen entries of the inverse S-box. */
  function InvRow(h: bv4): bv128 {
    if h < 8 then
      if h < 4 then
        if h < 2 then
          if h == 0 then 0x52096ad5_3036a538_bf40a39e_81f3d7fb else 0x7ce33982_9b2fff87_348e4344_c4dee9cb
        else
          if h == 2 then 0x547b9432_a6c2233d_ee4c950b_42fac34e else 0x082ea166_28d924b2_765ba249_6d8bd125
      else
        if h < 6 then
          if h == 4 then 0x72f8f664_86689816_d4a45ccc_5d65b692 else 0x6c704850_fdedb9da_5e154657_a78d9d84
        else
          if h == 6 then 0x90d8ab00_8cbcd30a_f7e45805_b8b34506 else 0xd02c1e8f_ca3f0f02_c1afbd03_01138a6b
    else
      if h < 12 then
        if h < 10 then
          if h == 8 then 0x3a911141_4f67dcea_97f2cfce_f0b4e673 else 0x96ac7422_e7ad3585_e2f937e8_1c75df6e
        else
          if h == 10 then 0x47f11a71_1d29c589_6fb7620e_aa18be1b else 0xfc563e4b_c6d27920_9adbc0fe_78cd5af4
      else
        if h < 14 then
          if h == 12 then 0x1fdda833_8807c731_b1121059_2780ec5f else 0x60517fa9_19b54a0d_2de57a9f_93c99cef
        else
          if h == 14 then 0xa0e03b4d_ae2af5b0_c8ebbb3c_83539961 else 0x172b047e_ba77d626_e1691463_55210c7d
  }

  function Si(x: bv8): bv8 { Pick(InvRow((x >> 4) as bv4), (x & 15) as bv7) }

  lemma SiUndoesLow(x: bv8)
    requires x < 128
    ensures Si(S(x)) == x
  {
  }

  lemma SiUndoesHigh(x: bv8)
    requires x >= 128
    ensures Si(S(x)) == x
  {
  }

  lemma SiUndoesS(x: bv8)
    ensures Si(S(x)) == x
  {
    if x < 128 {
      SiUndoesLow(x);
    } else {
      SiUndoesHigh(x);
    }
  }

  lemma SUndoesLow(x: bv8)
    requires x < 128
    ensures S(Si(x)) == x
  {
  }

  lemma SUndoesHigh(x: bv8)
    requires x >= 128
    ensures S(Si(x)) == x
  {
  }

  lemma SUndoesSi(x: bv8)
    ensures S(Si(x)) == x
  {
    if x < 128 {
      SUndoesLow(x);
    } else {
      SUndoesHigh(x);
    }
  }

  function SubByte(x: Byte): Byte { Byte(S(x.bits)) }

  function InvSubByte(x: Byte): Byte { Byte(Si(x.bits)) }

  /** The tables of AES. */
  function Rijndael(): (box: Box)
    ensures box.Valid() && box.sub == SubByte
  {
    var box := Box(SubByte, InvSubByte);
    assert box.Valid() by {
      forall x ensures box.inv(box.sub(x)) == x && box.sub(box.inv(x)) == x {
        SiUndoesS(x.bits);
        SUndoesSi(x.bits);
      }
    }
    box
  }

  function Bit(b: bv8, i: bv3): bool { (b >> i) & 1 == 1 }

  /** The product in GF(2^8), by shifts and additions (section 4.2.1 of FIPS 197). */
  function Product(a: bv8, b: bv8): bv8 {
    var a1 := Xtime(a);
    var a2 := Xtime(a1);
    var a3 := Xtime(a2);
    var a4 := Xtime(a3);
    var a5 := Xtime(a4);
    var a6 := Xtime(a5);
    var a7 := Xtime(a6);
    (if Bit(b, 0) then a else 0) ^ (if Bit(b, 1) then a1 else 0) ^ (if Bit(b, 2) then a2 else 0)
    ^ (if Bit(b, 3) then a3 else 0)
    ^ (if Bit(b, 4) then a4 else 0) ^ (if Bit(b, 5) then a5 else 0) ^ (if Bit(b, 6) then a6 else 0)
    ^ (if Bit(b, 7) then a7 else 0)
  }

  function RotateLeft(x: bv8, n: bv4): bv8
    requires 0 < n < 8
  {
    (x << n) | (x >> (8 - n))
  }

  /** The affine transformation of section 5.1.1 of FIPS 197. */
  function Affine(x: bv8): bv8 { x ^ RotateLeft(x, 1) ^ RotateLeft(x, 2) ^ RotateLeft(x, 3) ^ RotateLeft(x, 4) ^ 0x63 }

  function InvAffine(x: bv8): bv8 { RotateLeft(x, 1) ^ RotateLeft(x, 3) ^ RotateLeft(x, 6) ^ 0x05 }

  lemma SboxInverse(x: bv8)
    ensures if x == 0 then InvAffine(S(x)) == 0 else Product(x, InvAffine(S(x))) == 1
  {
  }

  lemma AffineInverse(x: bv8)
    ensures Affine(InvAffine(x)) == x
  {
  }

  /** The table is the S-box of FIPS 197: the inverse in GF(2^8), zero for zero, then the affine transformation. */
  lemma SboxIsFips(x: bv8)
    ensures exists y :: S(x) == Affine(y) && if x == 0 then y == 0 else Product(x, y) == 1
  {
    var y := InvAffine(S(x));
    SboxInverse(x);
    AffineInverse(S(x));
    assert S(x) == Affine(y);
  }
}
