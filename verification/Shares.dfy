// Share envelopes: `LLS1-` and the URL-safe base64 of
//   version(1) generation(16) k(1) n(1) index(1) y(32) crc32(4),
// and the older form, plain base64 of index(1) y(32).

module Shares {
  import opened Wrappers
  import opened Field
  import Crc
  import Base64

  const PREFIX := "LLS1-"
  const VERSION: Byte := 1

  datatype ParsedShare = ParsedShare(
    version: Byte, generation: string, threshold: Byte, total: Byte, index: Byte, y: seq<Byte>, legacy: bool)

  datatype ShareError =
    | BadEncoding
    | BadLength
    | UnsupportedVersion(version: Byte)
    | ChecksumMismatch
    | PolicyInvalid
    | IndexOutOfRange
    | BadLegacyIndex

  // ---------------------------------------------------------------------
  // Generations in hexadecimal
  // ---------------------------------------------------------------------

  function HexDigit(n: int): char
    requires 0 <= n < 16
  {
    if n < 10 then (n + 48) as char else (n + 87) as char
  }

  function HexValue(c: char): (r: Option<int>)
    ensures r.Some? ==> 0 <= r.value < 16
  {
    if '0' <= c <= '9' then Some(c as int - 48)
    else if 'a' <= c <= 'f' then Some(c as int - 87)
    else if 'A' <= c <= 'F' then Some(c as int - 55)
    else None
  }

  function Lower(c: char): char {
    if 'A' <= c <= 'Z' then (c as int + 32) as char else c
  }

  function LowerCase(s: string): string {
    seq(|s|, i requires 0 <= i < |s| => Lower(s[i]))
  }

  function HexByte(b: Byte): string {
    [HexDigit(Num(b) / 16), HexDigit(Num(b) % 16)]
  }

  function Hex(d: seq<Byte>): string {
    if d == [] then "" else HexByte(d[0]) + Hex(d[1..])
  }

  predicate IsHex(s: string) {
    forall i :: 0 <= i < |s| ==> HexValue(s[i]).Some?
  }

  function ParseHex(s: string): (d: seq<Byte>)
    requires |s| % 2 == 0 && IsHex(s)
    ensures |d| == |s| / 2
  {
    if s == [] then []
    else [ParseHexByte(s[0], s[1])] + ParseHex(s[2..])
  }

  function ParseHexByte(c: char, d: char): Byte
    requires HexValue(c).Some? && HexValue(d).Some?
  {
    ByteAt(HexValue(c).value * 16 + HexValue(d).value)
  }

  lemma HexByteRoundTrip(c: char, d: char)
    requires HexValue(c).Some? && HexValue(d).Some?
    ensures HexByte(ParseHexByte(c, d)) == [Lower(c), Lower(d)]
  {
    hide HexValue, HexDigit, Lower, Num, ByteAt;
    ByteAtRoundTrip(HexValue(c).value * 16 + HexValue(d).value);
    HexDigitLower(c); HexDigitLower(d);
  }

  lemma HexDigitLower(c: char)
    requires HexValue(c).Some?
    ensures HexDigit(HexValue(c).value) == Lower(c)
  {}

  // Printing a parsed generation gives it back in lower case.
  lemma {:induction false} HexRoundTrip(s: string)
    requires |s| % 2 == 0 && IsHex(s)
    ensures Hex(ParseHex(s)) == LowerCase(s)
    decreases |s|
  {
    hide HexValue, HexByte, ParseHexByte, Lower;
    if s != [] {
      HexByteRoundTrip(s[0], s[1]);
      HexRoundTrip(s[2..]);
      assert ParseHex(s) == [ParseHexByte(s[0], s[1])] + ParseHex(s[2..]);
      assert LowerCase(s) == [Lower(s[0]), Lower(s[1])] + LowerCase(s[2..]);
    }
  }

  // ---------------------------------------------------------------------
  // Envelopes
  // ---------------------------------------------------------------------

  function WordBytes(c: Crc.Word): seq<Byte> {
    [((c >> 24) & 0xff) as Byte, ((c >> 16) & 0xff) as Byte, ((c >> 8) & 0xff) as Byte, (c & 0xff) as Byte]
  }

  function BytesWord(a: Byte, b: Byte, c: Byte, d: Byte): Crc.Word {
    ((a as Crc.Word) << 24) | ((b as Crc.Word) << 16) | ((c as Crc.Word) << 8) | (d as Crc.Word)
  }

  lemma WordRoundTrip(c: Crc.Word)
    ensures var w := WordBytes(c); BytesWord(w[0], w[1], w[2], w[3]) == c
  {}

  function Header(gen: seq<Byte>, k: Byte, n: Byte, x: Byte, y: seq<Byte>): seq<Byte> {
    [VERSION] + gen + [k, n, x] + y
  }

  function Payload(gen: seq<Byte>, k: Byte, n: Byte, x: Byte, y: seq<Byte>): seq<Byte> {
    var h := Header(gen, k, n, x, y);
    h + WordBytes(Crc.Crc32(h))
  }

  function Print(gen: seq<Byte>, k: Byte, n: Byte, x: Byte, y: seq<Byte>): string {
    PREFIX + Base64.UrlEncode(Payload(gen, k, n, x, y))
  }

  // The white space that the browser's trim removes.
  predicate IsSpace(c: char) {
    || '\t' <= c <= '\r' || c == ' ' || c == '\U{a0}' || c == '\U{1680}' || '\U{2000}' <= c <= '\U{200a}'
    || c == '\U{2028}' || c == '\U{2029}' || c == '\U{202f}' || c == '\U{205f}' || c == '\U{3000}' || c == '\U{feff}'
  }

  function TrimStart(s: string): string {
    if s != [] && IsSpace(s[0]) then TrimStart(s[1..]) else s
  }

  function TrimEnd(s: string): string {
    if s != [] && IsSpace(s[|s| - 1]) then TrimEnd(s[..|s| - 1]) else s
  }

  function Trim(s: string): string {
    TrimEnd(TrimStart(s))
  }

  function ParsePayload(raw: seq<Byte>): Result<ParsedShare, ShareError> {
    if |raw| != 56 then Failure(BadLength)
    else if raw[0] != VERSION then Failure(UnsupportedVersion(raw[0]))
    else
      var k, n, idx := raw[17], raw[18], raw[19];
      if BytesWord(raw[52], raw[53], raw[54], raw[55]) != Crc.Crc32(raw[..52]) then Failure(ChecksumMismatch)
      else if k < 1 || n < 1 || k > n then Failure(PolicyInvalid)
      else if idx < 1 || idx > n then Failure(IndexOutOfRange)
      else Success(ParsedShare(VERSION, Hex(raw[1..17]), k, n, idx, raw[20..52], false))
  }

  function ParseLegacy(raw: seq<Byte>): Result<ParsedShare, ShareError> {
    if |raw| != 33 then Failure(BadLength)
    else if raw[0] < 1 then Failure(BadLegacyIndex)
    else Success(ParsedShare(0, "", 0, 0, raw[0], raw[1..], true))
  }

  function ParseShare(s: string): Result<ParsedShare, ShareError> {
    var t := Trim(s);
    if PREFIX <= t then
      match Base64.UrlDecode(t[|PREFIX|..])
      case Failure(_) => Failure(BadEncoding)
      case Success(raw) => ParsePayload(raw)
    else
      match Base64.Decode(t)
      case Failure(_) => Failure(BadEncoding)
      case Success(raw) => ParseLegacy(raw)
  }

  lemma ParsedLength(s: string)
    requires ParseShare(s).Success?
    ensures |ParseShare(s).value.y| == 32
    ensures ParseShare(s).value.index != 0
  {
    hide Trim, Base64.UrlDecode, Base64.Decode, Crc.Crc32, BytesWord, Hex;
  }

  // ---------------------------------------------------------------------
  // Round trip
  // ---------------------------------------------------------------------

  lemma PayloadParses(gen: seq<Byte>, k: Byte, n: Byte, x: Byte, y: seq<Byte>)
    requires |gen| == 16 && |y| == 32 && 1 <= k <= n && 1 <= x <= n
    ensures ParsePayload(Payload(gen, k, n, x, y)) == Success(ParsedShare(VERSION, Hex(gen), k, n, x, y, false))
  {
    hide Crc.Crc32, WordBytes, BytesWord, Hex, Payload;
    var h := Header(gen, k, n, x, y);
    PayloadFields(gen, k, n, x, y);
    WordRoundTrip(Crc.Crc32(h));
  }

  lemma PayloadFields(gen: seq<Byte>, k: Byte, n: Byte, x: Byte, y: seq<Byte>)
    requires |gen| == 16 && |y| == 32
    ensures var raw, h := Payload(gen, k, n, x, y), Header(gen, k, n, x, y);
            && |raw| == 56 && raw[0] == VERSION && raw[17] == k && raw[18] == n && raw[19] == x
            && raw[1..17] == gen && raw[20..52] == y && raw[..52] == h
            && [raw[52], raw[53], raw[54], raw[55]] == WordBytes(Crc.Crc32(h))
  {
    hide Crc.Crc32, WordBytes;
    var h := Header(gen, k, n, x, y);
    var w := WordBytes(Crc.Crc32(h));
    WordLength(Crc.Crc32(h));
    assert |h| == 52 && h[1..17] == gen && h[20..52] == y;
    var raw := h + w;
    assert raw[..52] == h;
    assert raw[1..17] == h[1..17] && raw[20..52] == h[20..52];
  }

  lemma WordLength(c: Crc.Word)
    ensures |WordBytes(c)| == 4
  {}

  lemma TrimKeeps(s: string)
    requires s != [] && !IsSpace(s[0]) && !IsSpace(s[|s| - 1])
    ensures Trim(s) == s
  {
    hide IsSpace;
  }

  lemma UrlCharsKept(d: seq<Byte>)
    requires d != []
    ensures var u := Base64.UrlEncode(d); u != [] && !IsSpace(u[|u| - 1])
  {
    hide Base64.Body, Base64.UrlEncode, Base64.ToUrl, Base64.InAlphabet, IsSpace;
    var b := Base64.Body(d);
    Base64.BodyClean(d);
    Base64.UrlEncodeShape(d);
    UrlCharFacts(b[|b| - 1]);
  }

  lemma UrlCharFacts(c: char)
    requires Base64.InAlphabet(c)
    ensures !IsSpace(Base64.ToUrl(c))
  {}

  // Parsing what is printed of any bytes is reading those bytes.
  lemma PrintedParses(raw: seq<Byte>)
    requires raw != []
    ensures ParseShare(PREFIX + Base64.UrlEncode(raw)) == ParsePayload(raw)
  {
    hide Base64.UrlEncode, Base64.UrlDecode, ParsePayload, Trim, IsSpace;
    var s := PREFIX + Base64.UrlEncode(raw);
    UrlCharsKept(raw);
    PrefixFacts();
    TrimKeeps(s);
    assert PREFIX <= s && s[|PREFIX|..] == Base64.UrlEncode(raw);
    Base64.UrlDecodeInverts(raw);
  }

  // Parsing any printed envelope gives back exactly its fields.
  lemma ParseInvertsPrint(gen: seq<Byte>, k: Byte, n: Byte, x: Byte, y: seq<Byte>)
    requires |gen| == 16 && |y| == 32 && 1 <= k <= n && 1 <= x <= n
    ensures ParseShare(Print(gen, k, n, x, y)) == Success(ParsedShare(VERSION, Hex(gen), k, n, x, y, false))
  {
    hide Payload, Base64.UrlEncode, ParsePayload, ParseShare, Hex;
    PayloadNonempty(gen, k, n, x, y);
    PrintedParses(Payload(gen, k, n, x, y));
    PayloadParses(gen, k, n, x, y);
  }

  lemma PrefixFacts()
    ensures !IsSpace(PREFIX[0])
  {}

  lemma PayloadNonempty(gen: seq<Byte>, k: Byte, n: Byte, x: Byte, y: seq<Byte>)
    ensures Payload(gen, k, n, x, y) != []
  {
    hide Crc.Crc32, WordBytes;
  }

  // ---------------------------------------------------------------------
  // Corruption
  // ---------------------------------------------------------------------

  lemma SameWord(a: Byte, b: Byte, c: Byte, d: Byte, e: Byte, f: Byte, g: Byte, h: Byte)
    requires BytesWord(a, b, c, d) == BytesWord(e, f, g, h)
    ensures a == e && b == f && c == g && d == h
  {}

  // What two words differ in, as far as their last bytes agree.
  lemma LastByteAgrees(a: Byte, b: Byte, c: Byte, e: Byte, f: Byte, g: Byte, d: Byte)
    ensures Crc.Mix(BytesWord(a, b, c, d), BytesWord(e, f, g, d)) & 0xff == 0
  {}

  lemma LastTwoAgree(a: Byte, b: Byte, e: Byte, f: Byte, c: Byte, d: Byte)
    ensures Crc.Mix(BytesWord(a, b, c, d), BytesWord(e, f, c, d)) & 0xffff == 0
  {}

  lemma LastThreeAgree(a: Byte, e: Byte, b: Byte, c: Byte, d: Byte)
    ensures Crc.Mix(BytesWord(a, b, c, d), BytesWord(e, b, c, d)) & 0xff_ffff == 0
  {}

  lemma WordBits(a: Byte, b: Byte, c: Byte, d: Byte, e: Byte, f: Byte)
    ensures Crc.Mix(BytesWord(a, b, c, d), BytesWord(e, f, c, d)) == 0xf4ee_0000 <==> e == a ^ 0xf4 && f == b ^ 0xee
  {}

  lemma WordException(a: Byte, b: Byte, c: Byte, d: Byte, e: Byte, f: Byte)
    ensures Crc.Mix(BytesWord(a, b, c, d), BytesWord(e, f, c, d)) == 0xf4ee_0000
            <==> e == GfAdd(a, 0xf4) && f == GfAdd(b, 0xee)
  {
    hide Crc.Mix, BytesWord;
    WordBits(a, b, c, d, e, f);
  }

  lemma PackPair(p: Byte, q: Byte)
    ensures Crc.Pack([p, q]) == Crc.Mix(Crc.Widen(p), Crc.RaiseByte(Crc.Mix(Crc.Widen(q), Crc.RaiseByte(0))))
  {
    hide Crc.Mix, Crc.Widen, Crc.RaiseByte;
    assert [p, q][1..] == [q] && [q][1..] == [] && Crc.Pack([]) == 0;
    assert Crc.Pack([q]) == Crc.Mix(Crc.Widen(q), Crc.RaiseByte(0));
  }

  lemma PackedPair(p: Byte, q: Byte, r: Byte, t: Byte)
    ensures Crc.Mix(Crc.Mix(Crc.Widen(p), Crc.RaiseByte(Crc.Mix(Crc.Widen(q), Crc.RaiseByte(0)))),
                    Crc.Mix(Crc.Widen(r), Crc.RaiseByte(Crc.Mix(Crc.Widen(t), Crc.RaiseByte(0))))) == 0xd861
            <==> r == GfAdd(p, 0x61) && t == GfAdd(q, 0xd8)
  {}

  lemma PackException(p: Byte, q: Byte, r: Byte, t: Byte)
    ensures Crc.Mix(Crc.Pack([p, q]), Crc.Pack([r, t])) == 0xd861 <==> r == GfAdd(p, 0x61) && t == GfAdd(q, 0xd8)
  {
    hide *;
    PackPair(p, q); PackPair(r, t);
    PackedPair(p, q, r, t);
  }

  lemma ParsedFields(raw: seq<Byte>)
    requires ParsePayload(raw).Success?
    ensures |raw| == 56 && ParsePayload(raw).value.index == raw[19] && ParsePayload(raw).value.y == raw[20..52]
  {
    hide Crc.Crc32, BytesWord, Hex;
  }

  // The checksum a payload carries.
  function Stored(raw: seq<Byte>): Crc.Word
    requires |raw| == 56
  {
    BytesWord(raw[52], raw[53], raw[54], raw[55])
  }

  // Past its fields a payload that parses is held to its checksum alone.
  lemma ParsesByChecksum(raw: seq<Byte>, bad: seq<Byte>)
    requires ParsePayload(raw).Success? && |bad| == 56 && bad[..49] == raw[..49]
    ensures Stored(raw) == Crc.Crc32(raw[..52])
    ensures ParsePayload(bad).Success? <==> Stored(bad) == Crc.Crc32(bad[..52])
  {
    hide Crc.Crc32, BytesWord, Hex;
    assert bad[0] == bad[..49][0] && raw[0] == raw[..49][0];
    assert bad[17] == bad[..49][17] && raw[17] == raw[..49][17];
    assert bad[18] == bad[..49][18] && raw[18] == raw[..49][18];
    assert bad[19] == bad[..49][19] && raw[19] == raw[..49][19];
  }

  // The difference in the last m bytes before the checksum, as it lies in the
  // register, against the difference in the checksum.
  function DataDifference(raw: seq<Byte>, bad: seq<Byte>, m: nat): Crc.Word
    requires |raw| == |bad| == 56 && m <= 4
  {
    Crc.Mix(Crc.Pack(raw[52 - m..52]), Crc.Pack(bad[52 - m..52]))
  }

  function StoredDifference(raw: seq<Byte>, bad: seq<Byte>): Crc.Word
    requires |raw| == |bad| == 56
  {
    Crc.Mix(Stored(raw), Stored(bad))
  }

  lemma MixEqual(a: Crc.Word, b: Crc.Word, c: Crc.Word)
    ensures Crc.Mix(a, b) == Crc.Mix(a, c) <==> b == c
  {
    hide Crc.Mix;
    Crc.MixCancels(b, c, a);
  }

  lemma ChecksumDifference(raw: seq<Byte>, bad: seq<Byte>, m: nat)
    requires ParsePayload(raw).Success? && |bad| == 56 && m <= 3 && bad[..52 - m] == raw[..52 - m]
    ensures ParsePayload(bad).Success?
            <==> Crc.Shifts(DataDifference(raw, bad, m), 8 * m) == StoredDifference(raw, bad)
  {
    hide Crc.Crc32, BytesWord, Hex, ParsePayload, Crc.Mix, Crc.Pack, Crc.Shifts, Stored;
    ParsedFields(raw);
    assert bad[..49] == bad[..52 - m][..49] && raw[..49] == raw[..52 - m][..49];
    ParsesByChecksum(raw, bad);
    assert raw[..52] == raw[..52 - m] + raw[52 - m..52] && bad[..52] == raw[..52 - m] + bad[52 - m..52];
    Crc.CrcDifference(raw[..52 - m], raw[52 - m..52], bad[52 - m..52]);
    MixEqual(Stored(raw), Stored(bad), Crc.Crc32(bad[..52]));
  }

  // Bytes 50 to 53 of raw, changed in the one way the checksum does not see.
  function Undetected(raw: seq<Byte>): (v: seq<Byte>)
    requires |raw| == 56
    ensures |v| == 4
  {
    [GfAdd(raw[50], 0x61), GfAdd(raw[51], 0xd8), GfAdd(raw[52], 0xf4), GfAdd(raw[53], 0xee)]
  }

  // bad differs from raw in the last m bytes before the checksum and in the
  // checksum's first 4 - m bytes, if at all.
  predicate Straddles(raw: seq<Byte>, bad: seq<Byte>, m: nat) {
    |raw| == |bad| == 56 && 1 <= m <= 3 && bad[..52 - m] == raw[..52 - m] && bad[56 - m..] == raw[56 - m..]
  }

  // The differences are in the reach of the lemmas about the register.
  lemma DifferenceBounds(raw: seq<Byte>, bad: seq<Byte>, m: nat)
    requires Straddles(raw, bad, m)
    ensures m == 1 ==> Crc.InOne(DataDifference(raw, bad, m)) && StoredDifference(raw, bad) & 0xff == 0
    ensures m == 2 ==> Crc.InTwo(DataDifference(raw, bad, m)) && StoredDifference(raw, bad) & 0xffff == 0
    ensures m == 3 ==> Crc.InThree(DataDifference(raw, bad, m)) && StoredDifference(raw, bad) & 0xff_ffff == 0
  {
    hide Crc.Mix, BytesWord, Crc.InOne, Crc.InTwo, Crc.InThree, Crc.Pack;
    var v, w := raw[52 - m..52], bad[52 - m..52];
    Crc.PackFits(v); Crc.PackFits(w);
    assert forall j :: 56 - m <= j < 56 ==>
                         bad[j] == bad[56 - m..][j - (56 - m)] && raw[j] == raw[56 - m..][j - (56 - m)];
    if m == 1 {
      Crc.MixOne(Crc.Pack(v), Crc.Pack(w));
      LastByteAgrees(raw[52], raw[53], raw[54], bad[52], bad[53], bad[54], raw[55]);
    } else if m == 2 {
      Crc.MixTwo(Crc.Pack(v), Crc.Pack(w));
      LastTwoAgree(raw[52], raw[53], bad[52], bad[53], raw[54], raw[55]);
    } else {
      Crc.MixThree(Crc.Pack(v), Crc.Pack(w));
      LastThreeAgree(raw[52], bad[52], raw[53], raw[54], raw[55]);
    }
  }

  lemma NoDifference(raw: seq<Byte>, bad: seq<Byte>, m: nat)
    requires Straddles(raw, bad, m) && DataDifference(raw, bad, m) == 0 && StoredDifference(raw, bad) == 0
    ensures bad == raw
  {
    hide Crc.Mix, BytesWord, Crc.Pack;
    var v, w := raw[52 - m..52], bad[52 - m..52];
    Crc.MixZero(Crc.Pack(v), Crc.Pack(w)); Crc.MixZero(Stored(raw), Stored(bad));
    Crc.PackInjective(v, w);
    SameWord(raw[52], raw[53], raw[54], raw[55], bad[52], bad[53], bad[54], bad[55]);
    assert raw == raw[..52 - m] + v + raw[52..] && bad == raw[..52 - m] + w + bad[52..];
    assert raw[52..] == [raw[52], raw[53], raw[54], raw[55]] && bad[52..] == [bad[52], bad[53], bad[54], bad[55]];
  }

  lemma ExceptionBytes(raw: seq<Byte>, bad: seq<Byte>)
    requires Straddles(raw, bad, 2)
    ensures (DataDifference(raw, bad, 2) == 0xd861 && StoredDifference(raw, bad) == 0xf4ee_0000)
            <==> bad[50..54] == Undetected(raw)
  {
    hide Crc.Mix, BytesWord, Crc.Pack, GfAdd;
    assert raw[50..52] == [raw[50], raw[51]] && bad[50..52] == [bad[50], bad[51]];
    TailAgrees(raw, bad);
    PackException(raw[50], raw[51], bad[50], bad[51]);
    WordException(raw[52], raw[53], raw[54], raw[55], bad[52], bad[53]);
    assert bad[50..54] == [bad[50], bad[51], bad[52], bad[53]];
  }

  lemma TailAgrees(raw: seq<Byte>, bad: seq<Byte>)
    requires |raw| == |bad| == 56 && bad[54..] == raw[54..]
    ensures bad[54] == raw[54] && bad[55] == raw[55]
  {
    assert bad[54] == bad[54..][0] && raw[54] == raw[54..][0] && bad[55] == bad[54..][1] && raw[55] == raw[54..][1];
  }

  lemma EdgeZero(m: nat, x: Crc.Word, z: Crc.Word)
    requires x == 0 && Crc.Shifts(x, 8 * m) == z
    ensures z == 0
  {
    hide Crc.Shifts;
    Crc.ShiftsZero(8 * m);
  }

  // Of the corruptions across the checksum's edge the code accepts one.
  lemma EdgeCorruption(raw: seq<Byte>, bad: seq<Byte>, m: nat)
    requires ParsePayload(raw).Success? && Straddles(raw, bad, m) && bad != raw
    ensures ParsePayload(bad).Success? <==> m == 2 && bad[50..54] == Undetected(raw)
  {
    hide ParsePayload, DataDifference, StoredDifference, Crc.Shifts, Undetected, Crc.InOne, Crc.InTwo, Crc.InThree;
    var x, z := DataDifference(raw, bad, m), StoredDifference(raw, bad);
    ChecksumDifference(raw, bad, m);
    DifferenceBounds(raw, bad, m);
    if ParsePayload(bad).Success? {
      if x == 0 {
        EdgeZero(m, x, z);
        NoDifference(raw, bad, m);
      } else if m == 1 {
        Crc.EdgeOne(x);
      } else if m == 2 {
        Crc.EdgeTwo(x);
        Crc.EdgeException();
        ExceptionBytes(raw, bad);
      } else {
        Crc.EdgeThree(x);
      }
    } else if m == 2 && bad[50..54] == Undetected(raw) {
      Crc.EdgeException();
      ExceptionBytes(raw, bad);
    }
  }

  lemma DataCorruption(raw: seq<Byte>, i: nat, v: seq<Byte>)
    requires ParsePayload(raw).Success?
    requires |v| <= 4 && i + |v| <= 52 && v != raw[i..i + |v|]
    ensures ParsePayload(raw[..i] + v + raw[i + |v|..]).Failure?
  {
    hide Crc.Crc32, BytesWord, Hex;
    var w, suffix := raw[i..i + |v|], raw[i + |v|..52];
    var bad := raw[..i] + v + raw[i + |v|..];
    assert bad[..52] == raw[..i] + v + suffix;
    assert raw[..52] == raw[..i] + w + suffix;
    assert bad[52..] == raw[52..];
    assert bad[52] == raw[52] && bad[53] == raw[53] && bad[54] == raw[54] && bad[55] == raw[55];
    Crc.BurstDetected(raw[..i], v, w, suffix);
  }

  lemma ChecksumCorruption(raw: seq<Byte>, bad: seq<Byte>)
    requires ParsePayload(raw).Success? && |bad| == 56 && bad[..52] == raw[..52] && bad != raw
    ensures ParsePayload(bad).Failure?
  {
    hide Crc.Crc32, BytesWord, ParsePayload;
    ParsedFields(raw);
    assert bad[..49] == bad[..52][..49] && raw[..49] == raw[..52][..49];
    ParsesByChecksum(raw, bad);
    if Stored(bad) == Stored(raw) {
      SameTail(raw, bad);
    }
  }

  lemma SameTail(raw: seq<Byte>, bad: seq<Byte>)
    requires |raw| == |bad| == 56 && bad[..52] == raw[..52] && Stored(bad) == Stored(raw)
    ensures bad == raw
  {
    hide BytesWord;
    SameWord(raw[52], raw[53], raw[54], raw[55], bad[52], bad[53], bad[54], bad[55]);
    assert raw == raw[..52] + [raw[52], raw[53], raw[54], raw[55]];
    assert bad == bad[..52] + [bad[52], bad[53], bad[54], bad[55]];
  }

  // Changing up to four consecutive bytes anywhere in a share body that parses
  // leaves one that does not, with one exception: the bytes 61 D8 F4 EE added
  // to bytes 50 to 53 change the data and the checksum alike.
  lemma CorruptionRejected(raw: seq<Byte>, i: nat, v: seq<Byte>)
    requires ParsePayload(raw).Success?
    requires |v| <= 4 && i + |v| <= 56 && v != raw[i..i + |v|]
    ensures ParsePayload(raw[..i] + v + raw[i + |v|..]).Failure? <==> !(i == 50 && v == Undetected(raw))
  {
    hide ParsePayload, Undetected, GfAdd;
    ParsedFields(raw);
    var bad := raw[..i] + v + raw[i + |v|..];
    assert bad[i..i + |v|] == v;
    if i + |v| <= 52 {
      DataCorruption(raw, i, v);
    } else if i >= 52 {
      assert bad[..52] == raw[..52];
      ChecksumCorruption(raw, bad);
    } else {
      var m := 52 - i;
      assert bad[..i] == raw[..i] && bad[56 - m..] == raw[56 - m..];
      EdgeCorruption(raw, bad, m);
      if m == 2 {
        UndetectedWindow(raw, bad, v);
      }
    }
  }

  lemma UndetectedWindow(raw: seq<Byte>, bad: seq<Byte>, v: seq<Byte>)
    requires |raw| == 56 && 2 < |v| <= 4 && bad == raw[..50] + v + raw[50 + |v|..]
    ensures bad[50..54] == Undetected(raw) <==> v == Undetected(raw)
  {
    if |v| == 4 {
      assert bad[50..54] == v;
    } else {
      assert bad[50..54][3] == raw[53];
      XorChanges(raw[53]);
    }
  }

  lemma XorChanges(b: Byte)
    ensures GfAdd(b, 0xee) != b
  {}

  lemma XorDiffers(b: Byte)
    ensures GfAdd(b, 0x61) != b
  {}

  // The exception is real: whatever the share, this corruption of it parses,
  // as a share of the same index with another value.
  lemma CorruptionAccepted(raw: seq<Byte>)
    requires ParsePayload(raw).Success?
    ensures var bad := raw[..50] + Undetected(raw) + raw[54..];
            && ParsePayload(bad).Success? && ParsePayload(bad).value.index == ParsePayload(raw).value.index
            && ParsePayload(bad).value.y != ParsePayload(raw).value.y
  {
    hide GfAdd, ParsePayload;
    ParsedFields(raw);
    XorDiffers(raw[50]);
    var bad := raw[..50] + Undetected(raw) + raw[54..];
    assert Undetected(raw)[0] != raw[50..54][0];
    CorruptionRejected(raw, 50, Undetected(raw));
    ParsedFields(bad);
    assert bad[20..52][30] == Undetected(raw)[0] && raw[20..52][30] == raw[50];
  }
}
