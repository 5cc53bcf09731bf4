// Mistyped characters of a printed share: what the checksum catches of them.

module Mistyped {
  import opened Wrappers
  import opened Field
  import opened Base64
  import opened Shares

  // ---------------------------------------------------------------------
  // What decodes to a whole share
  // ---------------------------------------------------------------------

  // How many characters of s stand for six bits.
  function Letters(s: string): nat
    decreases |s|
  {
    if s == [] then 0 else (if InAlphabet(s[0]) then 1 else 0) + Letters(s[1..])
  }

  lemma {:induction false} LettersAppend(s: string, t: string)
    ensures Letters(s + t) == Letters(s) + Letters(t)
    decreases |s|
  {
    hide InAlphabet;
    if s == [] {
      assert s + t == t;
    } else {
      assert (s + t)[1..] == s[1..] + t;
      LettersAppend(s[1..], t);
    }
  }

  lemma {:induction false} LettersBound(s: string)
    ensures Letters(s) <= |s|
    ensures Letters(s) == |s| <==> Clean(s)
    decreases |s|
  {
    hide InAlphabet;
    if s != [] {
      LettersBound(s[1..]);
      assert Clean(s) ==> Clean(s[1..]);
      assert s == [s[0]] + s[1..];
    }
  }

  lemma {:induction false} LettersStrip(s: string)
    ensures Letters(StripSpace(s)) == Letters(s)
    decreases |s|
  {
    hide InAlphabet, IsAsciiSpace;
    if s != [] {
      LettersStrip(s[1..]);
      var rest := StripSpace(s[1..]);
      if InAlphabet(s[0]) {
        CleanFacts(s[0]);
      }
      if IsAsciiSpace(s[0]) {
        assert StripSpace(s) == rest;
      } else {
        assert StripSpace(s) == [s[0]] + rest && ([s[0]] + rest)[1..] == rest;
      }
    }
  }

  lemma NoLetter()
    ensures !InAlphabet('=') && Letters("=") == 0 && Letters([]) == 0
  {
  }

  lemma LettersPad(s: string)
    ensures Letters(PadUp(s)) == Letters(s)
    decreases 3 - (|s| + 3) % 4
  {
    hide InAlphabet;
    NoLetter();
    if |s| % 4 != 0 {
      LettersAppend(s, "=");
      LettersPad(s + "=");
    }
  }

  lemma LettersDrop(s: string)
    ensures Letters(DropPadding(s)) <= Letters(s)
  {
    hide Letters, InAlphabet;
    var d := DropPadding(s);
    assert s == d + s[|d|..];
    LettersAppend(d, s[|d|..]);
  }

  lemma {:induction false} UnbodyClean(s: string)
    requires Unbody(s).Some?
    ensures Clean(s) && |s| % 4 != 1
    ensures |Unbody(s).value| == 3 * (|s| / 4) + (if |s| % 4 == 0 then 0 else |s| % 4 - 1)
    decreases |s|
  {
    hide ByteOne, ByteTwo, ByteThree, CharSextet;
    if |s| >= 4 {
      UnbodyClean(s[4..]);
      assert |s[4..]| / 4 == |s| / 4 - 1 && |s[4..]| % 4 == |s| % 4;
      assert s == [s[0], s[1], s[2], s[3]] + s[4..];
    }
  }

  lemma LengthOfWhole(n: nat)
    requires 3 * (n / 4) + (if n % 4 == 0 then 0 else n % 4 - 1) == 56 && n % 4 != 1
    ensures n == 75
  {
  }

  // A body of 75 characters or fewer decodes to 56 bytes only if there are 75
  // and each of them stands for six bits.
  lemma DecodesWhole(x: string, d: seq<Byte>)
    requires |x| <= 75 && UrlDecode(x) == Success(d) && |d| == 56
    ensures |x| == 75 && Clean(MapFromUrl(x)) && Unbody(MapFromUrl(x)) == Some(d)
  {
    hide Letters, Unbody, StripSpace, PadUp, DropPadding, FromUrl, InAlphabet;
    var m := MapFromUrl(x);
    var p := PadUp(m);
    var s := DropPadding(StripSpace(p));
    UnbodyClean(s);
    LengthOfWhole(|s|);
    LettersBound(s); LettersBound(m);
    LettersDrop(StripSpace(p)); LettersStrip(p); LettersPad(m);
    WholeStays(m);
  }

  lemma WholeStays(m: string)
    ensures |m| == 75 && Clean(m) ==> DropPadding(StripSpace(PadUp(m))) == m
  {
    hide StripSpace, InAlphabet, IsAsciiSpace;
    if |m| == 75 && Clean(m) {
      assert PadUp(m) == m + "=";
      forall i | 0 <= i < |m| ensures m[i] != '=' && !IsAsciiSpace(m[i]) {
        CleanFacts(m[i]);
      }
      EqualsNoSpace();
      StripSpaceKeeps(m + "=");
      assert (m + "=")[..75] == m;
    }
  }

  lemma EqualsNoSpace()
    ensures !IsAsciiSpace('=')
  {
  }

  // ---------------------------------------------------------------------
  // Which characters a byte is made of
  // ---------------------------------------------------------------------

  function Sextet(c: char): Byte {
    if InAlphabet(c) then SextetOf(c).value else 0
  }

  // Byte j is made of characters Place(j) and Place(j) + 1.
  function Place(j: nat): nat {
    4 * j / 3
  }

  function ByteFrom(j: nat, s: Byte, t: Byte): Byte {
    if j % 3 == 0 then ByteOne(s, t) else if j % 3 == 1 then ByteTwo(s, t) else ByteThree(s, t)
  }

  lemma PlaceShift(j: nat)
    ensures Place(j + 3) == Place(j) + 4 && (j + 3) % 3 == j % 3
    ensures Place(0) == 0 && Place(1) == 1 && Place(2) == 2
  {
  }

  lemma UnbodyFirst(s: string, j: nat)
    requires Unbody(s).Some? && j < |Unbody(s).value| && j < 3
    ensures j + 1 < |s| && Unbody(s).value[j] == ByteFrom(j, Sextet(s[j]), Sextet(s[j + 1]))
  {
    hide ByteOne, ByteTwo, ByteThree, SextetOf, InAlphabet, Sextet;
    forall i | 0 <= i < |s| && SextetOf(s[i]).Some? ensures SextetOf(s[i]) == Some(Sextet(s[i])) {
      SextetIs(s[i]);
    }
  }

  lemma SextetIs(c: char)
    requires SextetOf(c).Some?
    ensures SextetOf(c) == Some(Sextet(c))
  {
    hide CharSextet;
  }

  lemma UnbodyRest(s: string)
    requires Unbody(s).Some? && |Unbody(s).value| > 3
    ensures |s| > 4 && Unbody(s[4..]).Some? && Unbody(s).value[3..] == Unbody(s[4..]).value
  {
    hide ByteOne, ByteTwo, ByteThree, SextetOf;
  }

  lemma {:induction false} UnbodyByte(s: string, j: nat)
    requires Unbody(s).Some? && j < |Unbody(s).value|
    ensures Place(j) + 1 < |s|
    ensures Unbody(s).value[j] == ByteFrom(j, Sextet(s[Place(j)]), Sextet(s[Place(j) + 1]))
    decreases |s|
  {
    hide Unbody, ByteOne, ByteTwo, ByteThree, Sextet, Place;
    PlaceShift(j);
    if j >= 3 {
      PlaceShift(j - 3);
      UnbodyRest(s);
      UnbodyByte(s[4..], j - 3);
      assert Unbody(s).value[j] == Unbody(s).value[3..][j - 3];
      assert s[4..][Place(j - 3)] == s[Place(j)] && s[4..][Place(j - 3) + 1] == s[Place(j) + 1];
    } else {
      UnbodyFirst(s, j);
    }
  }

  // The first byte that a change from character i on can reach.
  function Reach(i: nat): nat {
    3 * i / 4
  }

  lemma Reached(i: nat, j: nat)
    requires j < Reach(i) || Reach(i) + 4 <= j
    ensures !(i <= Place(j) < i + 4) && !(i <= Place(j) + 1 < i + 4)
  {
    var q, p := Reach(i), Place(j);
    assert 4 * q <= 3 * i < 4 * q + 4 && 3 * p <= 4 * j < 3 * p + 3;
  }

  // The strings agree except perhaps at characters i to i + 3.
  predicate Near(x: string, y: string, i: nat) {
    |x| == |y| && forall m :: 0 <= m < |x| && !(i <= m < i + 4) ==> x[m] == y[m]
  }

  lemma NearBytes(x: string, y: string, i: nat, j: nat)
    requires Near(x, y, i) && Unbody(x).Some? && Unbody(y).Some?
    requires j < |Unbody(x).value| && j < |Unbody(y).value|
    requires j < Reach(i) || Reach(i) + 4 <= j
    ensures Unbody(x).value[j] == Unbody(y).value[j]
  {
    hide Unbody, Reach, Place, ByteFrom, Sextet;
    UnbodyByte(x, j); UnbodyByte(y, j);
    Reached(i, j);
  }

  // A decoded body that differs from raw only where the change can reach.
  lemma NearDecoded(raw: seq<Byte>, x: string, i: nat, d: seq<Byte>)
    requires |raw| == 56 && |d| == 56 && Near(x, UrlEncode(raw), i) && UrlDecode(x) == Success(d)
    ensures |x| == 75
    ensures forall j :: 0 <= j < 56 && !(Reach(i) <= j < Reach(i) + 4) ==> d[j] == raw[j]
    ensures Unbody(MapFromUrl(x)) == Some(d) && Unbody(MapFromUrl(UrlEncode(raw))) == Some(raw)
    ensures Near(MapFromUrl(x), MapFromUrl(UrlEncode(raw)), i)
  {
    hide Unbody, UrlDecode, UrlEncode, FromUrl, Reach;
    var y := UrlEncode(raw);
    EncodedLength(raw);
    UrlDecodeInverts(raw);
    DecodesWhole(x, d);
    DecodesWhole(y, raw);
    forall j | 0 <= j < 56 && !(Reach(i) <= j < Reach(i) + 4) ensures d[j] == raw[j] {
      NearBytes(MapFromUrl(x), MapFromUrl(y), i, j);
    }
  }

  lemma EncodedLength(raw: seq<Byte>)
    requires |raw| == 56
    ensures |UrlEncode(raw)| == 75
  {
    hide Body, UrlEncode, ToUrl, InAlphabet;
    UrlEncodeShape(raw);
    BodyClean(raw);
  }

  // ---------------------------------------------------------------------
  // The one change the checksum does not see takes six characters
  // ---------------------------------------------------------------------

  // Bit 6 of a third byte is its first character's.
  lemma ThirdBit(s: Byte, t: Byte, u: Byte)
    requires u < 64 && t < 64
    ensures ByteThree(s, t) != GfAdd(ByteThree(s, u), 0x61)
  {
  }

  lemma SextetSmall(c: char)
    ensures Sextet(c) < 64
  {
  }

  lemma NotUndetected(raw: seq<Byte>, x: string, i: nat, d: seq<Byte>)
    requires |raw| == 56 && |d| == 56 && Near(x, UrlEncode(raw), i) && UrlDecode(x) == Success(d)
    ensures d[50..54] != Undetected(raw)
  {
    hide Unbody, UrlDecode, UrlEncode, FromUrl, Reach, ByteThree, Sextet, GfAdd;
    NearDecoded(raw, x, i, d);
    var m, b := MapFromUrl(x), MapFromUrl(UrlEncode(raw));
    assert Place(50) == 66 && Place(53) == 70;
    UnbodyByte(m, 50); UnbodyByte(b, 50); UnbodyByte(m, 53); UnbodyByte(b, 53);
    assert Undetected(raw)[0] == GfAdd(raw[50], 0x61) && Undetected(raw)[3] == GfAdd(raw[53], 0xee);
    assert d[50..54][0] == d[50] && d[50..54][3] == d[53];
    if i <= 66 < i + 4 {
      assert m[70] == b[70] && m[71] == b[71];
      XorChanges(raw[53]);
    } else {
      SextetSmall(m[67]); SextetSmall(b[67]);
      ThirdBit(Sextet(b[66]), Sextet(m[67]), Sextet(b[67]));
    }
  }

  // ---------------------------------------------------------------------
  // Printed shares
  // ---------------------------------------------------------------------

  lemma PrefixKept()
    ensures !IsSpace(PREFIX[0]) && !IsSpace(PREFIX[|PREFIX| - 1])
  {
  }

  lemma {:induction false} TrimEndTail(p: string, x: string)
    requires p != [] && !IsSpace(p[|p| - 1])
    ensures TrimEnd(p + x) == p + TrimEnd(x) && |TrimEnd(x)| <= |x|
    ensures |TrimEnd(x)| == |x| ==> TrimEnd(x) == x
    decreases |x|
  {
    hide IsSpace;
    if x == [] {
      assert p + x == p;
    } else if IsSpace(x[|x| - 1]) {
      assert (p + x)[..|p + x| - 1] == p + x[..|x| - 1];
      TrimEndTail(p, x[..|x| - 1]);
    }
  }

  lemma ParsesTrimmed(x: string)
    ensures ParseShare(PREFIX + x) == match UrlDecode(TrimEnd(x))
                                      case Failure(_) => Failure(BadEncoding)
                                      case Success(d) => ParsePayload(d)
  {
    hide UrlDecode, ParsePayload, IsSpace, TrimEnd;
    PrefixKept();
    TrimEndTail(PREFIX, x);
    var t := PREFIX + TrimEnd(x);
    assert Trim(PREFIX + x) == t;
    assert PREFIX <= t && t[|PREFIX|..] == TrimEnd(x);
  }

  // Whatever is typed for up to four neighbouring characters of a printed
  // share's body, it is rejected, unless it decodes to the very same bytes:
  // mistyping never yields another share.
  lemma MistypedRejected(raw: seq<Byte>, x: string, i: nat)
    requires ParsePayload(raw).Success? && Near(x, UrlEncode(raw), i)
    ensures ParseShare(PREFIX + x).Success? <==> UrlDecode(TrimEnd(x)) == Success(raw)
    ensures ParseShare(PREFIX + x).Success? ==> ParseShare(PREFIX + x) == ParseShare(PREFIX + UrlEncode(raw))
  {
    hide ParsePayload, ParseShare, UrlDecode, UrlEncode, TrimEnd, Reach, Undetected;
    ParsedFields(raw);
    PrintedParses(raw);
    ParsesTrimmed(x);
    if ParseShare(PREFIX + x).Success? {
      var d := UrlDecode(TrimEnd(x)).value;
      ParsedFields(d);
      EncodedLength(raw);
      PrefixKept();
      TrimEndTail(PREFIX, x);
      DecodesWhole(TrimEnd(x), d);
      NearDecoded(raw, x, i, d);
      NotUndetected(raw, x, i, d);
      SameOrRejected(raw, d, if Reach(i) < 52 then Reach(i) else 52);
    }
  }

  // Bytes that agree but for four neighbours, and both parse.
  lemma SameOrRejected(raw: seq<Byte>, d: seq<Byte>, p: nat)
    requires ParsePayload(raw).Success? && ParsePayload(d).Success? && p <= 52 && |raw| == |d| == 56
    requires forall j :: 0 <= j < 56 && !(p <= j < p + 4) ==> d[j] == raw[j]
    requires d[50..54] != Undetected(raw)
    ensures d == raw
  {
    hide ParsePayload, Undetected;
    var v := d[p..p + 4];
    assert raw[..p] + v + raw[p + 4..] == d;
    if v == raw[p..p + 4] {
      assert d == raw[..p] + raw[p..p + 4] + raw[p + 4..] == raw;
    } else {
      CorruptionRejected(raw, p, v);
    }
  }

  lemma {:induction false} BodySplit(d: seq<Byte>, k: nat)
    requires 3 * k <= |d|
    ensures Body(d) == Body(d[..3 * k]) + Body(d[3 * k..]) && |Body(d[..3 * k])| == 4 * k
    decreases k
  {
    hide CharOf, First, Second, Third, Fourth;
    if k == 0 {
      assert d[..0] == [] && d[0..] == d && Body([]) + Body(d) == Body(d);
    } else {
      BodySplit(d[3..], k - 1);
      assert d[3..][..3 * (k - 1)] == d[..3 * k][3..] && d[3..][3 * (k - 1)..] == d[3 * k..];
    }
  }

  // Bytes 50 to 53 are printed in characters 66 to 71.
  lemma PrintedLocal(raw: seq<Byte>, bad: seq<Byte>)
    requires |raw| == |bad| == 56 && bad[..50] == raw[..50] && bad[54..] == raw[54..]
    ensures |UrlEncode(raw)| == |UrlEncode(bad)| == 75
    ensures forall m :: 0 <= m < 75 && !(66 <= m < 72) ==> UrlEncode(bad)[m] == UrlEncode(raw)[m]
  {
    hide Body, UrlEncode, ToUrl, InAlphabet;
    EncodedLength(raw); EncodedLength(bad);
    UrlEncodeShape(raw); UrlEncodeShape(bad);
    BodySplit(raw, 16); BodySplit(bad, 16);
    BodySplit(raw, 18); BodySplit(bad, 18);
    assert raw[..48] == raw[..50][..48] && bad[..48] == bad[..50][..48];
    assert raw[48] == raw[..50][48] && raw[49] == raw[..50][49] && bad[48] == bad[..50][48] && bad[49] == bad[..50][49];
    GroupStarts(raw[48..]); GroupStarts(bad[48..]);
    assert Body(raw)[64] == Body(raw[48..])[0] && Body(raw)[65] == Body(raw[48..])[1];
    assert Body(bad)[64] == Body(bad[48..])[0] && Body(bad)[65] == Body(bad[48..])[1];
    forall m | 0 <= m < 75 && !(66 <= m < 72) ensures Body(bad)[m] == Body(raw)[m] {
      if m < 64 {
        assert Body(raw)[m] == Body(raw[..48])[m] && Body(bad)[m] == Body(bad[..48])[m];
      } else if m >= 72 {
        assert Body(raw)[m] == Body(raw[54..])[m - 72] && Body(bad)[m] == Body(bad[54..])[m - 72];
      }
    }
  }

  lemma GroupStarts(d: seq<Byte>)
    requires |d| >= 3
    ensures |Body(d)| >= 2 && Body(d)[0] == CharOf(First(d[0])) && Body(d)[1] == CharOf(Second(d[0], d[1]))
  {
    hide CharOf, First, Second, Third, Fourth;
  }

  // Two strings that both parse, to the same index with different values.
  predicate Rivals(s: string, t: string) {
    && ParseShare(s).Success? && ParseShare(t).Success?
    && ParseShare(s).value.index == ParseShare(t).value.index && ParseShare(s).value.y != ParseShare(t).value.y
  }

  // Six are too many: every printed share has another one, of the same index
  // with another value, from which it differs in characters 66 to 71 alone.
  lemma MistypedAccepted(raw: seq<Byte>) returns (x: string)
    requires ParsePayload(raw).Success?
    ensures |x| == |UrlEncode(raw)| == 75
    ensures forall m :: 0 <= m < 75 && !(66 <= m < 72) ==> x[m] == UrlEncode(raw)[m]
    ensures Rivals(PREFIX + UrlEncode(raw), PREFIX + x)
  {
    hide ParsePayload, ParseShare, UrlEncode, Undetected;
    ParsedFields(raw);
    var bad := raw[..50] + Undetected(raw) + raw[54..];
    CorruptionAccepted(raw);
    PrintedParses(raw); PrintedParses(bad);
    PrintedLocal(raw, bad);
    x := UrlEncode(bad);
  }
}
