// Published values: the constants and alphabets are those of the standards.

module Vectors {
  import opened Field
  import Base64
  import Crc
  import Shares

  // Section 4.2 of FIPS 197: {57} times {13} is {fe}, and {57} times {83} is {c1}.
  lemma FieldProducts()
    ensures GfMul(0x57, 0x13) == 0xfe && GfMul(0x57, 0x83) == 0xc1
  {
    GfMulIsProduct(0x57, 0x13); GfMulIsProduct(0x57, 0x83);
    hide GfMul;
  }

  // Table 1 of RFC 4648, and what table 2 changes in it for the URL-safe form.
  lemma Alphabet(n: int)
    requires 0 <= n < 64
    ensures var c := Base64.SextetChar(n);
            && (n < 26 ==> c as int == 'A' as int + n)
            && (26 <= n < 52 ==> c as int == 'a' as int + n - 26)
            && (52 <= n < 62 ==> c as int == '0' as int + n - 52)
            && (n == 62 ==> c == '+' && Base64.ToUrl(c) == '-') && (n == 63 ==> c == '/' && Base64.ToUrl(c) == '_')
            && (n < 62 ==> Base64.ToUrl(c) == c)
  {
  }

  // Section 10 of RFC 4648: "fooba".
  lemma EncodedWord()
    ensures Base64.Encode([0x66, 0x6f, 0x6f, 0x62, 0x61]) == "Zm9vYmE="
  {
    var d: seq<Byte> := [0x66, 0x6f, 0x6f, 0x62, 0x61];
    Sextets();
    assert d[3..] == [0x62, 0x61];
    assert Base64.Body(d[3..]) == "YmE";
    assert Base64.Body(d) == "Zm9v" + Base64.Body(d[3..]);
  }

  lemma Sextets()
    ensures Base64.CharOf(Base64.First(0x66)) == 'Z' && Base64.CharOf(Base64.Second(0x66, 0x6f)) == 'm'
    ensures Base64.CharOf(Base64.Third(0x6f, 0x6f)) == '9' && Base64.CharOf(Base64.Fourth(0x6f)) == 'v'
    ensures Base64.CharOf(Base64.First(0x62)) == 'Y' && Base64.CharOf(Base64.Second(0x62, 0x61)) == 'm'
    ensures Base64.CharOf(Base64.Third(0x61, 0)) == 'E'
  {
  }

  lemma ShiftSteps()
    ensures Crc.Shift(0xffff_ff9e) == 0x7fff_ffcf
    ensures Crc.Shift(0x7fff_ffcf) == 0xd247_7cc7
    ensures Crc.Shift(0xd247_7cc7) == 0x849b_3d43
    ensures Crc.Shift(0x849b_3d43) == 0xaff5_1d81
    ensures Crc.Shift(0xaff5_1d81) == 0xba42_0de0
    ensures Crc.Shift(0xba42_0de0) == 0x5d21_06f0
    ensures Crc.Shift(0x5d21_06f0) == 0x2e90_8378
    ensures Crc.Shift(0x2e90_8378) == 0x1748_41bc
    ensures Crc.Mix(0xffff_ffff, Crc.Widen(0x61)) == 0xffff_ff9e && Crc.Mix(0x1748_41bc, 0xffff_ffff) == 0xe8b7_be43
  {
  }

  // The CRC-32 of the one letter a.
  lemma LetterCrc()
    ensures Crc.Crc32([0x61]) == 0xe8b7_be43
  {
    hide Crc.Shift, Crc.Mix, Crc.Widen, Crc.Crc32;
    var d: seq<Byte> := [0x61];
    Crc.TableIsExact(d);
    ShiftSteps();
    assert Crc.Shifts(0xffff_ff9e, 8) == Crc.Shifts(0x7fff_ffcf, 7);
    assert Crc.Shifts(0x7fff_ffcf, 7) == Crc.Shifts(0xd247_7cc7, 6);
    assert Crc.Shifts(0xd247_7cc7, 6) == Crc.Shifts(0x849b_3d43, 5);
    assert Crc.Shifts(0x849b_3d43, 5) == Crc.Shifts(0xaff5_1d81, 4);
    assert Crc.Shifts(0xaff5_1d81, 4) == Crc.Shifts(0xba42_0de0, 3);
    assert Crc.Shifts(0xba42_0de0, 3) == Crc.Shifts(0x5d21_06f0, 2);
    assert Crc.Shifts(0x5d21_06f0, 2) == Crc.Shifts(0x2e90_8378, 1);
    assert Crc.Shifts(0x2e90_8378, 1) == Crc.Shifts(0x1748_41bc, 0);
    assert d[1..] == [];
    assert Crc.BitRun(0xffff_ffff, d) == Crc.BitRun(Crc.BitUpdate(0xffff_ffff, 0x61), d[1..]);
  }

  lemma PrintedPrefix(gen: seq<Byte>, k: Byte, n: Byte, x: Byte, y: seq<Byte>)
    ensures Shares.Print(gen, k, n, x, y)[..5] == "LLS1-"
  {
    hide Base64.UrlEncode, Shares.Payload;
  }
}
