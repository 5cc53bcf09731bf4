// The browser's base64 helpers: chunked encoding, forgiving decoding, and the
// URL-safe unpadded form in which shares are printed.

module Base64 {
  import opened Wrappers
  import opened Field

  // ---------------------------------------------------------------------
  // Alphabet (section 4 of RFC 4648)
  // ---------------------------------------------------------------------

  function SextetChar(n: int): char
    requires 0 <= n < 64
  {
    if n < 26 then (n + 65) as char
    else if n < 52 then (n + 71) as char
    else if n < 62 then (n - 4) as char
    else if n == 62 then '+'
    else '/'
  }

  function CharSextet(c: char): (r: Option<int>)
    ensures r.Some? ==> 0 <= r.value < 64
  {
    if 'A' <= c <= 'Z' then Some(c as int - 65)
    else if 'a' <= c <= 'z' then Some(c as int - 71)
    else if '0' <= c <= '9' then Some(c as int + 4)
    else if c == '+' then Some(62)
    else if c == '/' then Some(63)
    else None
  }

  predicate InAlphabet(c: char) { CharSextet(c).Some? }

  lemma AlphabetRoundTrip(n: int)
    requires 0 <= n < 64
    ensures CharSextet(SextetChar(n)) == Some(n)
  {}

  // Three bytes as four sextets, and back.
  function First(a: Byte): Byte { a >> 2 }
  function Second(a: Byte, b: Byte): Byte { ((a & 3) << 4) | (b >> 4) }
  function Third(b: Byte, c: Byte): Byte { ((b & 15) << 2) | (c >> 6) }
  function Fourth(c: Byte): Byte { c & 63 }

  function ByteOne(s: Byte, t: Byte): Byte { (s << 2) | (t >> 4) }
  function ByteTwo(t: Byte, u: Byte): Byte { (t << 4) | (u >> 2) }
  function ByteThree(u: Byte, v: Byte): Byte { (u << 6) | v }

  lemma GroupRoundTrip(a: Byte, b: Byte, c: Byte)
    ensures ByteOne(First(a), Second(a, b)) == a
    ensures ByteTwo(Second(a, b), Third(b, c)) == b
    ensures ByteThree(Third(b, c), Fourth(c)) == c
  {}

  lemma SextetRange(a: Byte, b: Byte)
    ensures First(a) < 64 && Second(a, b) < 64 && Third(a, b) < 64 && Fourth(a) < 64
  {}

  function CharOf(s: Byte): char {
    if Num(s) < 64 then SextetChar(Num(s)) else '='
  }

  function SextetOf(c: char): Option<Byte> {
    match CharSextet(c)
    case Some(n) => Some(n as Byte)
    case None => None
  }

  lemma CharRoundTrip(s: Byte)
    requires s < 64
    ensures SextetOf(CharOf(s)) == Some(s)
  {
    assert Num(s) < 64;
    AlphabetRoundTrip(Num(s));
  }

  // ---------------------------------------------------------------------
  // btoa
  // ---------------------------------------------------------------------

  function Body(d: seq<Byte>): string
    decreases |d|
  {
    if |d| >= 3 then
      [CharOf(First(d[0])), CharOf(Second(d[0], d[1])), CharOf(Third(d[1], d[2])), CharOf(Fourth(d[2]))]
      + Body(d[3..])
    else if |d| == 2 then
      [CharOf(First(d[0])), CharOf(Second(d[0], d[1])), CharOf(Third(d[1], 0))]
    else if |d| == 1 then
      [CharOf(First(d[0])), CharOf(Second(d[0], 0))]
    else []
  }

  function Padding(n: nat): string {
    if n % 3 == 1 then "==" else if n % 3 == 2 then "=" else ""
  }

  function Encode(d: seq<Byte>): string {
    Body(d) + Padding(|d|)
  }

  // A string that holds one byte in each character.
  function Latin1(d: seq<Byte>): string {
    seq(|d|, i requires 0 <= i < |d| => Num(d[i]) as char)
  }

  function CharCode(c: char): Byte {
    if c as int < 256 then c as int as Byte else 0
  }

  function CharCodes(s: string): seq<Byte> {
    seq(|s|, i requires 0 <= i < |s| => CharCode(s[i]))
  }

  function Btoa(s: string): Result<string, string> {
    if exists i :: 0 <= i < |s| && s[i] as int >= 256 then Failure("InvalidCharacterError")
    else Success(Encode(CharCodes(s)))
  }

  lemma CharCodesOfLatin1(d: seq<Byte>)
    ensures CharCodes(Latin1(d)) == d
    ensures forall i :: 0 <= i < |d| ==> Latin1(d)[i] as int < 256
  {
    forall i | 0 <= i < |d| ensures CharCodes(Latin1(d))[i] == d[i] {
      CodeRoundTrip(d[i]);
    }
  }

  lemma CodeRoundTrip(b: Byte)
    ensures CharCode(Num(b) as char) == b
  {}

  // b64encode: the binary string is assembled in chunks of 0x8000 bytes.
  method B64Encode(bytes: seq<Byte>) returns (r: string)
    ensures r == Encode(bytes)
  {
    hide Encode, Num, CharCodes;
    var s := "";
    var i := 0;
    while i < |bytes|
      invariant 0 <= i
      invariant s == Latin1(bytes[..if i < |bytes| then i else |bytes|])
    {
      var end := if i + 0x8000 < |bytes| then i + 0x8000 else |bytes|;
      assert Latin1(bytes[..end]) == Latin1(bytes[..i]) + Latin1(bytes[i..end]);
      s := s + Latin1(bytes[i..end]);
      i := i + 0x8000;
    }
    assert s == Latin1(bytes) by { assert bytes[..|bytes|] == bytes; }
    CharCodesOfLatin1(bytes);
    var b := Btoa(s);
    r := b.value;
  }

  // ---------------------------------------------------------------------
  // atob: the forgiving decoder of the WHATWG Infra standard
  // ---------------------------------------------------------------------

  predicate IsAsciiSpace(c: char) { c in {'\t', '\n', '\U{c}', '\r', ' '} }

  function StripSpace(s: string): string {
    if s == [] then []
    else (if IsAsciiSpace(s[0]) then [] else [s[0]]) + StripSpace(s[1..])
  }

  function DropPadding(s: string): string {
    if |s| % 4 != 0 || |s| == 0 || s[|s| - 1] != '=' then s
    else if s[|s| - 2] == '=' then s[..|s| - 2]
    else s[..|s| - 1]
  }

  // Groups of four characters give three bytes; two or three characters left
  // over give one or two, and their spare low bits are discarded.
  function Unbody(s: string): Option<seq<Byte>>
    decreases |s|
  {
    if |s| == 0 then Some([])
    else if |s| == 1 then None
    else
      match (SextetOf(s[0]), SextetOf(s[1]))
      case (Some(a), Some(b)) =>
        if |s| == 2 then Some([ByteOne(a, b)])
        else
          (match SextetOf(s[2])
           case None => None
           case Some(c) =>
             if |s| == 3 then Some([ByteOne(a, b), ByteTwo(b, c)])
             else
               match (SextetOf(s[3]), Unbody(s[4..]))
               case (Some(d), Some(rest)) =>
                 Some([ByteOne(a, b), ByteTwo(b, c), ByteThree(c, d)] + rest)
               case _ => None)
      case _ => None
  }

  function Decode(s: string): Result<seq<Byte>, string> {
    match Unbody(DropPadding(StripSpace(s)))
    case Some(d) => Success(d)
    case None => Failure("InvalidCharacterError")
  }

  function Atob(s: string): Result<string, string> {
    match Decode(s)
    case Success(d) => Success(Latin1(d))
    case Failure(e) => Failure(e)
  }

  // b64decode copies the characters of the decoded string into a byte array.
  method B64Decode(b64: string) returns (r: Result<seq<Byte>, string>)
    ensures r == Decode(b64)
  {
    hide Num, Unbody;
    var bin := Atob(b64);
    match bin
    case Failure(e) => r := Failure(e);
    case Success(s) =>
      ghost var d := Decode(b64).value;
      CharCodesOfLatin1(d);
      var out := new Byte[|s|](_ => 0);
      for i := 0 to |s|
        invariant out[..i] == CharCodes(s)[..i]
      {
        out[i] := CharCode(s[i]);
      }
      assert out[..] == CharCodes(s);
      r := Success(out[..]);
  }

  // ---------------------------------------------------------------------
  // Round trip
  // ---------------------------------------------------------------------

  predicate Clean(s: string) {
    forall i :: 0 <= i < |s| ==> InAlphabet(s[i])
  }

  lemma CharOfClean(s: Byte)
    requires s < 64
    ensures InAlphabet(CharOf(s))
  {
    CharRoundTrip(s);
  }

  lemma GroupClean(a: Byte, b: Byte)
    ensures InAlphabet(CharOf(First(a))) && InAlphabet(CharOf(Second(a, b)))
    ensures InAlphabet(CharOf(Third(a, b))) && InAlphabet(CharOf(Fourth(a)))
  {
    hide *;
    SextetRange(a, b);
    CharOfClean(First(a)); CharOfClean(Second(a, b));
    CharOfClean(Third(a, b)); CharOfClean(Fourth(a));
  }

  lemma {:induction false} BodyClean(d: seq<Byte>)
    ensures Clean(Body(d))
    ensures |Body(d)| == 4 * (|d| / 3) + if |d| % 3 == 0 then 0 else |d| % 3 + 1
    decreases |d|
  {
    hide CharOf, First, Second, Third, Fourth, InAlphabet;
    if |d| >= 3 {
      GroupClean(d[0], d[1]); GroupClean(d[1], d[2]); GroupClean(d[2], 0);
      BodyClean(d[3..]);
      assert |d[3..]| / 3 == |d| / 3 - 1 && |d[3..]| % 3 == |d| % 3;
    } else if |d| == 2 {
      GroupClean(d[0], d[1]); GroupClean(d[1], 0);
    } else if |d| == 1 {
      GroupClean(d[0], 0);
    }
  }

  lemma GroupDecodes(a: Byte, b: Byte, c: Byte)
    ensures SextetOf(CharOf(First(a))) == Some(First(a))
    ensures SextetOf(CharOf(Second(a, b))) == Some(Second(a, b))
    ensures SextetOf(CharOf(Third(b, c))) == Some(Third(b, c))
    ensures SextetOf(CharOf(Fourth(c))) == Some(Fourth(c))
  {
    hide *;
    SextetRange(a, b); SextetRange(b, c); SextetRange(c, 0);
    CharRoundTrip(First(a)); CharRoundTrip(Second(a, b));
    CharRoundTrip(Third(b, c)); CharRoundTrip(Fourth(c));
    GroupRoundTrip(a, b, c);
  }

  lemma {:induction false} UnbodyInverts(d: seq<Byte>)
    ensures Unbody(Body(d)) == Some(d)
    decreases |d|
  {
    hide CharOf, SextetOf, First, Second, Third, Fourth, ByteOne, ByteTwo, ByteThree;
    if |d| >= 3 {
      GroupDecodes(d[0], d[1], d[2]); GroupRoundTrip(d[0], d[1], d[2]);
      UnbodyInverts(d[3..]);
      assert Body(d)[4..] == Body(d[3..]);
      assert d == [d[0], d[1], d[2]] + d[3..];
    } else if |d| == 2 {
      GroupDecodes(d[0], d[1], 0); GroupRoundTrip(d[0], d[1], 0);
      assert d == [d[0], d[1]];
    } else if |d| == 1 {
      GroupDecodes(d[0], 0, 0); GroupRoundTrip(d[0], 0, 0);
      assert d == [d[0]];
    }
  }

  lemma CleanFacts(c: char)
    requires InAlphabet(c)
    ensures c != '=' && c != '-' && c != '_' && !IsAsciiSpace(c)
  {}

  lemma {:induction false} StripSpaceKeeps(s: string)
    requires forall i :: 0 <= i < |s| ==> !IsAsciiSpace(s[i])
    ensures StripSpace(s) == s
  {
    hide IsAsciiSpace;
    if s != [] {
      StripSpaceKeeps(s[1..]);
      assert s == [s[0]] + s[1..];
    }
  }

  lemma EncodeShape(d: seq<Byte>)
    ensures |Encode(d)| % 4 == 0
    ensures DropPadding(Encode(d)) == Body(d)
    ensures forall i :: 0 <= i < |Encode(d)| ==> !IsAsciiSpace(Encode(d)[i])
  {
    hide Body, InAlphabet;
    var b, p := Body(d), Padding(|d|);
    BodyClean(d);
    forall i | 0 <= i < |b| ensures b[i] != '=' && !IsAsciiSpace(b[i]) {
      CleanFacts(b[i]);
    }
    assert |d| % 3 == 1 ==> (b + p)[..|b + p| - 2] == b;
    assert |d| % 3 == 2 ==> (b + p)[..|b + p| - 1] == b;
    assert |d| % 3 == 0 ==> b + p == b;
  }

  // Decoding undoes encoding, on byte strings of every length.
  lemma DecodeInverts(d: seq<Byte>)
    ensures Decode(Encode(d)) == Success(d)
  {
    hide Body, Unbody, Encode, IsAsciiSpace, DropPadding;
    EncodeShape(d);
    StripSpaceKeeps(Encode(d));
    UnbodyInverts(d);
  }

  // ---------------------------------------------------------------------
  // The URL-safe form without padding (section 5 of RFC 4648)
  // ---------------------------------------------------------------------

  function ToUrl(c: char): char {
    if c == '+' then '-' else if c == '/' then '_' else c
  }

  function FromUrl(c: char): char {
    if c == '-' then '+' else if c == '_' then '/' else c
  }

  function MapToUrl(s: string): string {
    seq(|s|, i requires 0 <= i < |s| => ToUrl(s[i]))
  }

  function MapFromUrl(s: string): string {
    seq(|s|, i requires 0 <= i < |s| => FromUrl(s[i]))
  }

  function StripEquals(s: string): string {
    if s != [] && s[|s| - 1] == '=' then StripEquals(s[..|s| - 1]) else s
  }

  // Equals signs up to the next multiple of four characters.
  function PadUp(s: string): string
    decreases 3 - (|s| + 3) % 4
  {
    if |s| % 4 == 0 then s else PadUp(s + "=")
  }

  function UrlEncode(d: seq<Byte>): string {
    StripEquals(MapToUrl(Encode(d)))
  }

  function UrlDecode(s: string): Result<seq<Byte>, string> {
    Decode(PadUp(MapFromUrl(s)))
  }

  method ComputeUrlEncode(d: seq<Byte>) returns (r: string)
    ensures r == UrlEncode(d)
  {
    hide Encode;
    var b64 := B64Encode(d);
    r := StripEquals(MapToUrl(b64));
  }

  method ComputeUrlDecode(s: string) returns (r: Result<seq<Byte>, string>)
    ensures r == UrlDecode(s)
  {
    hide Decode, FromUrl;
    var b64 := MapFromUrl(s);
    while |b64| % 4 != 0
      invariant PadUp(b64) == PadUp(MapFromUrl(s))
      decreases 3 - (|b64| + 3) % 4
    {
      b64 := b64 + "=";
    }
    r := B64Decode(b64);
  }

  lemma UrlEncodeShape(d: seq<Byte>)
    ensures UrlEncode(d) == MapToUrl(Body(d))
  {
    hide Body, ToUrl, InAlphabet;
    var b, p := Body(d), Padding(|d|);
    BodyClean(d);
    assert ToUrl('=') == '=' by { ToUrlFacts('='); }
    assert MapToUrl(b + p) == MapToUrl(b) + p;
    if b != [] {
      CleanFacts(b[|b| - 1]);
      ToUrlFacts(b[|b| - 1]);
    }
    StripPadding(MapToUrl(b), p);
  }

  lemma ToUrlFacts(c: char)
    ensures ToUrl(c) == '=' <==> c == '='
    ensures InAlphabet(c) ==> FromUrl(ToUrl(c)) == c
  {}

  lemma {:induction false} StripPadding(s: string, p: string)
    requires s == [] || s[|s| - 1] != '='
    requires forall i :: 0 <= i < |p| ==> p[i] == '='
    ensures StripEquals(s + p) == s
  {
    if p == [] {
      assert s + p == s;
    } else {
      assert (s + p)[..|s + p| - 1] == s + p[..|p| - 1];
      StripPadding(s, p[..|p| - 1]);
    }
  }

  // The printed form decodes to what was printed.
  lemma UrlDecodeInverts(d: seq<Byte>)
    ensures UrlDecode(UrlEncode(d)) == Success(d)
  {
    hide Body, Decode, ToUrl, FromUrl, InAlphabet, UrlEncode;
    var b := Body(d);
    BodyClean(d);
    UrlEncodeShape(d);
    forall i | 0 <= i < |b| ensures FromUrl(ToUrl(b[i])) == b[i] {
      ToUrlFacts(b[i]);
    }
    assert MapFromUrl(MapToUrl(b)) == b;
    PadUpIsPadding(b, |d|);
    DecodeInverts(d);
  }

  lemma PadUpIsPadding(b: string, n: nat)
    requires |b| == 4 * (n / 3) + if n % 3 == 0 then 0 else n % 3 + 1
    ensures PadUp(b) == b + Padding(n)
  {
    if n % 3 == 1 {
      assert PadUp(b) == PadUp(b + "=") == PadUp(b + "=" + "=");
      assert b + "=" + "=" == b + "==";
    } else if n % 3 == 2 {
      assert PadUp(b) == PadUp(b + "=");
    } else {
      assert b + "" == b;
    }
  }
}
