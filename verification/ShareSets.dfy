// Which sets of shares are accepted, and what comes out of one that is.

module ShareSets {
  import opened Wrappers
  import opened Collections
  import opened Field
  import opened Polynomial
  import opened Shares
  import opened Shamir
  import Base64
  import Crc

  predicate AllParse(shares: seq<string>) {
    forall i :: 0 <= i < |shares| ==> ParseShare(shares[i]).Success?
  }

  function Parsed(shares: seq<string>, i: nat): ParsedShare
    requires i < |shares| && AllParse(shares)
  {
    ParseShare(shares[i]).value
  }

  // Either no share is of the old form, or all are.
  predicate OneForm(shares: seq<string>)
    requires AllParse(shares)
  {
    forall i, j :: 0 <= i < |shares| && 0 <= j < |shares| ==> Parsed(shares, i).legacy == Parsed(shares, j).legacy
  }

  predicate SameSplit(p: ParsedShare, q: ParsedShare) {
    p.generation == q.generation && p.total == q.total
  }

  // The shares of the new form are of one set: k-of-n for this k, of the
  // expected generation if one is given.
  predicate OneSet(shares: seq<string>, k: int, expected: Option<string>)
    requires AllParse(shares)
  {
    && (forall i, j :: 0 <= i < |shares| && 0 <= j < |shares| ==>
          Parsed(shares, i).legacy || Parsed(shares, j).legacy || SameSplit(Parsed(shares, i), Parsed(shares, j)))
    && (forall i :: 0 <= i < |shares| && !Parsed(shares, i).legacy ==>
          && Num(Parsed(shares, i).threshold) == k
          && (expected.Some? ==> Parsed(shares, i).generation == LowerCase(expected.value)))
  }

  predicate NoOldForm(shares: seq<string>)
    requires AllParse(shares)
  {
    forall i :: 0 <= i < |shares| ==> !Parsed(shares, i).legacy
  }

  predicate OwnIndexes(shares: seq<string>)
    requires AllParse(shares)
  {
    forall i, j :: 0 <= i < j < |shares| ==> Parsed(shares, i).index != Parsed(shares, j).index
  }

  // What a set has to be.
  predicate Acceptable(shares: seq<string>, k: int, expected: Option<string>) {
    && k >= 1 && |shares| == k && AllParse(shares)
    && OneForm(shares) && (expected.Some? && expected.value != "" ==> NoOldForm(shares))
    && OneSet(shares, k, expected) && OwnIndexes(shares)
  }

  lemma {:induction false} ParseAllExact(shares: seq<string>)
    ensures ParseAll(shares).Success? <==> AllParse(shares)
    ensures AllParse(shares) ==>
              forall i :: 0 <= i < |shares| ==> ParseAll(shares).value[i] == Parsed(shares, i)
    decreases |shares|
  {
    hide ParseShare;
    if shares != [] {
      ParseAllExact(shares[1..]);
      assert shares == [shares[0]] + shares[1..];
    }
  }

  lemma NumInjective(a: Byte, b: Byte)
    ensures Num(a) == Num(b) ==> a == b
  {
  }

  // ps is what the shares parse to.
  predicate ParsedTo(shares: seq<string>, ps: seq<ParsedShare>) {
    AllParse(shares) && |ps| == |shares| && forall i :: 0 <= i < |ps| ==> ps[i] == Parsed(shares, i)
  }

  lemma FormsMean(shares: seq<string>, ps: seq<ParsedShare>)
    requires ParsedTo(shares, ps)
    ensures OneForm(shares) <==> AllLegacy(ps) || AllModern(ps)
    ensures NoOldForm(shares) <==> AllModern(ps)
  {
    hide ParseShare;
  }

  lemma IndexesMean(shares: seq<string>, ps: seq<ParsedShare>)
    requires ParsedTo(shares, ps)
    ensures OwnIndexes(shares) <==> Distinct(Indexes(ps))
  {
    hide ParseShare;
    assert forall i :: 0 <= i < |ps| ==> Indexes(ps)[i] == Parsed(shares, i).index;
    if Distinct(Indexes(ps)) {
      forall i, j | 0 <= i < j < |shares| ensures Parsed(shares, i).index != Parsed(shares, j).index {
        assert Indexes(ps)[i] != Indexes(ps)[j];
      }
    }
  }

  lemma SetMeans(shares: seq<string>, ps: seq<ParsedShare>, k: int, expected: Option<string>)
    requires ParsedTo(shares, ps) && ps != []
    ensures AllLegacy(ps) ==> OneSet(shares, k, expected)
    ensures AllModern(ps) ==>
              (OneSet(shares, k, expected)
               <==> && SameSet(ps, if expected.Some? then LowerCase(expected.value) else ps[0].generation)
                    && Num(ps[0].threshold) == k)
  {
    hide ParseShare, LowerCase, Num;
    forall a: Byte, b: Byte ensures Num(a) == Num(b) ==> a == b { NumInjective(a, b); }
  }

  lemma CheckedExactly(shares: seq<string>, k: int, expected: Option<string>)
    requires k >= 1 && |shares| == k && AllParse(shares)
    ensures ParseAll(shares).Success? && ParsedTo(shares, ParseAll(shares).value)
    ensures CheckSet(ParseAll(shares).value, k, expected) == None <==> Acceptable(shares, k, expected)
  {
    hide ParseShare, ParseAll, LowerCase, Num, SameSet, OneSet, OneForm, NoOldForm, OwnIndexes, Distinct, AllModern;
    ParseAllExact(shares);
    var ps := ParseAll(shares).value;
    FormsMean(shares, ps);
    IndexesMean(shares, ps);
    SetMeans(shares, ps, k, expected);
    OneOfForm(ps);
  }

  lemma OneOfForm(ps: seq<ParsedShare>)
    requires ps != []
    ensures !(AllLegacy(ps) && AllModern(ps))
  {
    assert ps[0].legacy || !ps[0].legacy;
  }

  // Reconstruction succeeds for exactly these sets.
  lemma ReconstructsExactly(shares: seq<string>, k: int, expected: Option<string>)
    ensures Reconstruct(shares, k, expected).Success? <==> Acceptable(shares, k, expected)
  {
    hide ParseShare, ParseAll, CheckSet, Interpolate, OneForm, OneSet, NoOldForm, OwnIndexes;
    ParseAllExact(shares);
    if k >= 1 && |shares| == k && AllParse(shares) {
      CheckedExactly(shares, k, expected);
    }
  }

  // Any polynomial with k coefficients through the i-th bytes of the shares has
  // the i-th byte of the answer as its constant coefficient.
  lemma ReconstructsConstant(shares: seq<string>, k: int, expected: Option<string>, p: Poly, i: nat)
    requires Acceptable(shares, k, expected) && i < 32 && |p| == k
    requires forall j :: 0 <= j < k ==> |Parsed(shares, j).y| == 32
    requires forall j :: 0 <= j < k ==> Eval(p, Parsed(shares, j).index) == Parsed(shares, j).y[i]
    ensures Reconstruct(shares, k, expected).Success? && |Reconstruct(shares, k, expected).value| == 32
    ensures Reconstruct(shares, k, expected).value[i] == p[0]
  {
    hide ParseShare, ParseAll, CheckSet, Lagrange, Eval, OneForm, OneSet, NoOldForm, Distinct;
    CheckedExactly(shares, k, expected);
    var ps := ParseAll(shares).value;
    CheckedDistinct(ps, k, expected);
    LagrangeRecovers(p, Indexes(ps), Ordinates(ps, i));
  }

  // ---------------------------------------------------------------------
  // Mixed sets
  // ---------------------------------------------------------------------

  lemma DigitInjective(m: int, n: int)
    requires 0 <= m < 16 && 0 <= n < 16
    ensures HexDigit(m) == HexDigit(n) ==> m == n
  {
  }

  lemma {:induction false} HexInjective(a: seq<Byte>, b: seq<Byte>)
    requires Hex(a) == Hex(b)
    ensures a == b
    decreases |a|
  {
    hide HexDigit, Num;
    if a == [] || b == [] {
      HexLength(a); HexLength(b);
    } else {
      assert Hex(a)[..2] == HexByte(a[0]) && Hex(b)[..2] == HexByte(b[0]);
      assert Hex(a)[2..] == Hex(a[1..]) && Hex(b)[2..] == Hex(b[1..]);
      HexInjective(a[1..], b[1..]);
      HexByteInjective(a[0], b[0]);
      assert a == [a[0]] + a[1..] && b == [b[0]] + b[1..];
    }
  }

  lemma {:induction false} HexLength(a: seq<Byte>)
    ensures |Hex(a)| == 2 * |a|
    decreases |a|
  {
    if a != [] {
      HexLength(a[1..]);
    }
  }

  lemma HexByteInjective(a: Byte, b: Byte)
    requires HexByte(a) == HexByte(b)
    ensures a == b
  {
    hide HexDigit, Num;
    assert HexByte(a)[0] == HexByte(b)[0] && HexByte(a)[1] == HexByte(b)[1];
    NumSmall(a); NumSmall(b);
    DigitInjective(Num(a) / 16, Num(b) / 16);
    DigitInjective(Num(a) % 16, Num(b) % 16);
    NumInjective(a, b);
  }

  lemma NumSmall(a: Byte)
    ensures 0 <= Num(a) < 256
  {
  }

  // s is printed by a split of that generation.
  ghost predicate PrintedBy(s: string, gen: seq<Byte>) {
    exists vmk: seq<Byte>, total: int, coeffs: seq<seq<Byte>>, x: int ::
      Prints(s, vmk, gen, total, coeffs, x)
  }

  predicate Prints(s: string, vmk: seq<Byte>, gen: seq<Byte>, total: int, coeffs: seq<seq<Byte>>, x: int) {
    && |vmk| == 32 && |gen| == 16 && 1 <= x <= total <= 255
    && Coefficients(coeffs, |coeffs| + 1) && |coeffs| < total
    && s == PrintShare(vmk, gen, total, coeffs, x)
  }

  lemma PrintedGeneration(s: string, gen: seq<Byte>)
    requires PrintedBy(s, gen)
    ensures ParseShare(s).Success? && !ParseShare(s).value.legacy && ParseShare(s).value.generation == Hex(gen)
  {
    hide ParseShare, PrintShare, Hex, ShareBytes;
    var vmk, total, coeffs, x :| Prints(s, vmk, gen, total, coeffs, x);
    PrintedShareParses(vmk, gen, total, coeffs, x);
  }

  // The shares a split returns are printed by it.
  lemma SplitPrints(vmk: seq<Byte>, k: int, n: int, generation: Option<string>, random: seq<Byte>,
                    coeffs: seq<seq<Byte>>, i: nat)
    requires |random| == 16 && ValidPolicy(k, n) && Coefficients(coeffs, k)
    requires Split(vmk, k, n, generation, random, coeffs).Success?
    requires i < |Split(vmk, k, n, generation, random, coeffs).value|
    ensures NormalizeGeneration(generation, random).Success?
    ensures PrintedBy(Split(vmk, k, n, generation, random, coeffs).value[i],
                      NormalizeGeneration(generation, random).value)
  {
    hide NormalizeGeneration, PrintShare;
    assert Prints(Split(vmk, k, n, generation, random, coeffs).value[i], vmk,
                  NormalizeGeneration(generation, random).value, n, coeffs, i + 1);
  }

  lemma OneSetAgrees(shares: seq<string>, k: int, expected: Option<string>, i: nat, j: nat)
    requires AllParse(shares) && OneSet(shares, k, expected) && i < |shares| && j < |shares|
    requires !Parsed(shares, i).legacy && !Parsed(shares, j).legacy
    ensures Parsed(shares, i).generation == Parsed(shares, j).generation
    ensures expected.Some? ==> Parsed(shares, i).generation == LowerCase(expected.value)
  {
    assert SameSplit(Parsed(shares, i), Parsed(shares, j));
  }

  // Shares of two splits under different generations are never put together,
  // nor is a share of a generation that is not the expected one.
  lemma MixedRefused(shares: seq<string>, k: int, expected: Option<string>, i: nat, j: nat, a: seq<Byte>, b: seq<Byte>)
    requires i < |shares| && j < |shares| && PrintedBy(shares[i], a) && PrintedBy(shares[j], b)
    requires a != b || (expected.Some? && LowerCase(expected.value) != Hex(a))
    ensures Reconstruct(shares, k, expected).Failure?
  {
    hide ParseShare, Reconstruct, OneForm, OneSet, NoOldForm, OwnIndexes, Hex, LowerCase, PrintedBy;
    ReconstructsExactly(shares, k, expected);
    PrintedGeneration(shares[i], a); PrintedGeneration(shares[j], b);
    if Hex(a) == Hex(b) {
      HexInjective(a, b);
    }
    if Acceptable(shares, k, expected) {
      OneSetAgrees(shares, k, expected, i, j);
    }
  }

  // ---------------------------------------------------------------------
  // Which error
  // ---------------------------------------------------------------------

  // The first share that does not parse decides, and only the number of shares
  // is looked at before.
  lemma {:induction false} FirstFailure(shares: seq<string>, i: nat)
    requires i < |shares| && ParseShare(shares[i]).Failure?
    requires forall j :: 0 <= j < i ==> ParseShare(shares[j]).Success?
    ensures ParseAll(shares) == Failure(ParseShare(shares[i]).error)
    decreases |shares|
  {
    hide ParseShare;
    if i > 0 {
      FirstFailure(shares[1..], i - 1);
    }
  }

  lemma FirstRejected(shares: seq<string>, k: int, expected: Option<string>, i: nat)
    requires k >= 1 && |shares| == k && i < k && ParseShare(shares[i]).Failure?
    requires forall j :: 0 <= j < i ==> ParseShare(shares[j]).Success?
    ensures Reconstruct(shares, k, expected) == Failure(ShareRejected(ParseShare(shares[i]).error))
  {
    hide ParseShare, ParseAll, CheckSet, Interpolate;
    FirstFailure(shares, i);
  }

  lemma ErrorExactly(shares: seq<string>, k: int, expected: Option<string>)
    ensures var r := Reconstruct(shares, k, expected);
            && (r == Failure(ThresholdRejected) <==> k < 1)
            && (r == Failure(WrongCount) <==> k >= 1 && |shares| != k)
            && (r.Failure? && r.error.ShareRejected? <==> k >= 1 && |shares| == k && !AllParse(shares))
  {
    hide ParseShare, ParseAll, Interpolate;
    ParseAllExact(shares);
  }

  // Of a whole set: the form is looked at first, then the set, then the policy,
  // then the indices.
  lemma SetErrorExactly(shares: seq<string>, k: int, expected: Option<string>)
    requires k >= 1 && |shares| == k && AllParse(shares)
    ensures var r := Reconstruct(shares, k, expected);
            && (r == Failure(LegacyInGeneration)
                <==> expected.Some? && expected.value != "" && OneForm(shares) && !NoOldForm(shares))
            && (r == Failure(MixedFormats) <==> !OneForm(shares))
            && (r == Failure(DifferentSets) || r == Failure(WrongThreshold)
                <==> OneForm(shares) && !OneSet(shares, k, expected))
            && (r == Failure(WrongThreshold)
                <==> && NoOldForm(shares) && Num(Parsed(shares, 0).threshold) != k
                     && OneSet(shares, Num(Parsed(shares, 0).threshold), expected))
            && (r == Failure(DuplicateShares) <==>
                  && !OwnIndexes(shares) && OneForm(shares) && OneSet(shares, k, expected)
                  && (expected.Some? && expected.value != "" ==> NoOldForm(shares)))
  {
    hide ParseShare, ParseAll, Interpolate, LowerCase, Num, SameSet, OneSet, OneForm, NoOldForm, OwnIndexes, Distinct,
         AllModern;
    CheckedExactly(shares, k, expected);
    var ps := ParseAll(shares).value;
    FormsMean(shares, ps);
    IndexesMean(shares, ps);
    SetMeans(shares, ps, k, expected);
    SetMeans(shares, ps, Num(ps[0].threshold), expected);
    OneOfForm(ps);
  }

  // ---------------------------------------------------------------------
  // Which shares parse
  // ---------------------------------------------------------------------

  lemma WordBack(a: Byte, b: Byte, c: Byte, d: Byte, w: Crc.Word)
    ensures BytesWord(a, b, c, d) == w <==> [a, b, c, d] == WordBytes(w)
  {
    hide BytesWord, WordBytes;
    WordRoundTrip(w);
    WordLength(w);
    BytesBack(a, b, c, d);
  }

  lemma BytesBack(a: Byte, b: Byte, c: Byte, d: Byte)
    ensures WordBytes(BytesWord(a, b, c, d)) == [a, b, c, d]
  {
  }

  // A body parses exactly if it is what is printed for its own fields, and they
  // are a policy k-of-n and an index within it.
  lemma ParsesExactly(raw: seq<Byte>)
    ensures ParsePayload(raw).Success?
            <==> && |raw| == 56 && 1 <= raw[17] <= raw[18] && 1 <= raw[19] <= raw[18]
                 && raw == Payload(raw[1..17], raw[17], raw[18], raw[19], raw[20..52])
  {
    hide Crc.Crc32, Hex, BytesWord, WordBytes;
    if |raw| == 56 {
      var h := Header(raw[1..17], raw[17], raw[18], raw[19], raw[20..52]);
      WordBack(raw[52], raw[53], raw[54], raw[55], Crc.Crc32(raw[..52]));
      WordLength(Crc.Crc32(h));
      assert raw[0] == VERSION ==> raw[..52] == h;
      assert raw == raw[..52] + [raw[52], raw[53], raw[54], raw[55]];
      if raw == Payload(raw[1..17], raw[17], raw[18], raw[19], raw[20..52]) {
        assert raw[..52] == h && raw[0] == h[0];
        assert raw[52..] == WordBytes(Crc.Crc32(h));
      }
    }
  }

  // The older form: 33 bytes, an index that is not zero and the 32 of the share.
  lemma OldFormParses(raw: seq<Byte>)
    requires |raw| == 33 && raw[0] != 0
    ensures ParseShare(Base64.Encode(raw)) == Success(ParsedShare(0, "", 0, 0, raw[0], raw[1..], true))
  {
    hide Base64.Encode, Base64.Decode, Trim, IsSpace;
    EncodedPlainly(raw);
    TrimKeeps(Base64.Encode(raw));
    Base64.DecodeInverts(raw);
  }

  lemma EncodedPlainly(raw: seq<Byte>)
    requires |raw| == 33
    ensures var s := Base64.Encode(raw); |s| == 44 && !IsSpace(s[0]) && !IsSpace(s[43]) && !(PREFIX <= s)
  {
    hide Base64.Body, Base64.InAlphabet, IsSpace;
    Base64.BodyClean(raw);
    var s := Base64.Encode(raw);
    assert s == Base64.Body(raw);
    PlainChar(s[0]); PlainChar(s[43]); PlainChar(s[4]);
  }

  lemma PlainChar(c: char)
    requires Base64.InAlphabet(c)
    ensures !IsSpace(c) && c != PREFIX[4]
  {
  }

  // What is looked at, in this order, when a body does not parse.
  lemma PayloadErrors(raw: seq<Byte>)
    ensures var r := ParsePayload(raw);
            && (r == Failure(BadLength) <==> |raw| != 56)
            && (|raw| == 56 ==>
                  && (r == Failure(UnsupportedVersion(raw[0])) <==> raw[0] != 1)
                  && (r == Failure(ChecksumMismatch)
                      <==> raw[0] == 1 && [raw[52], raw[53], raw[54], raw[55]] != WordBytes(Crc.Crc32(raw[..52])))
                  && (r == Failure(PolicyInvalid) ==> !(1 <= raw[17] <= raw[18]))
                  && (r == Failure(IndexOutOfRange) ==> 1 <= raw[17] <= raw[18] && !(1 <= raw[19] <= raw[18])))
  {
    hide Crc.Crc32, Hex, BytesWord, WordBytes;
    if |raw| == 56 {
      WordBack(raw[52], raw[53], raw[54], raw[55], Crc.Crc32(raw[..52]));
    }
  }

  // A body is read as it decodes, and one that does not decode is refused.
  lemma BodyErrors(body: string)
    requires TrimEnd(body) == body
    ensures var r := ParseShare(PREFIX + body);
            && (r == Failure(BadEncoding) <==> Base64.UrlDecode(body).Failure?)
            && (Base64.UrlDecode(body).Success? ==> r == ParsePayload(Base64.UrlDecode(body).value))
  {
    hide Base64.UrlDecode, IsSpace, TrimEnd, Crc.Crc32, BytesWord, Hex;
    PrefixEnds();
    TailTrimmed(PREFIX, body);
    var t := PREFIX + body;
    assert Trim(t) == t;
    assert PREFIX <= t && t[|PREFIX|..] == body;
  }

  lemma PrefixEnds()
    ensures !IsSpace(PREFIX[0]) && !IsSpace(PREFIX[|PREFIX| - 1])
  {
  }

  lemma {:induction false} TailTrimmed(p: string, x: string)
    requires p != [] && !IsSpace(p[|p| - 1])
    ensures TrimEnd(p + x) == p + TrimEnd(x)
    decreases |x|
  {
    hide IsSpace;
    if x == [] {
      assert p + x == p;
    } else if IsSpace(x[|x| - 1]) {
      assert (p + x)[..|p + x| - 1] == p + x[..|x| - 1];
      TailTrimmed(p, x[..|x| - 1]);
    }
  }

  // ---------------------------------------------------------------------
  // White space around a share
  // ---------------------------------------------------------------------

  predicate Blank(s: string) {
    forall i :: 0 <= i < |s| ==> s[i] in " \t\n\r"
  }

  lemma BlankSpaces(c: char)
    requires c in " \t\n\r"
    ensures IsSpace(c)
  {
  }

  lemma {:induction false} TrimsStart(a: string, s: string)
    requires Blank(a)
    ensures TrimStart(a + s) == TrimStart(s)
    decreases |a|
  {
    hide IsSpace;
    if a == [] {
      assert a + s == s;
    } else {
      BlankSpaces(a[0]);
      assert (a + s)[1..] == a[1..] + s;
      TrimsStart(a[1..], s);
    }
  }

  lemma {:induction false} TrimsEnd(s: string, a: string)
    requires Blank(a)
    ensures TrimEnd(s + a) == TrimEnd(s)
    decreases |a|
  {
    hide IsSpace;
    if a == [] {
      assert s + a == s;
    } else {
      BlankSpaces(a[|a| - 1]);
      assert (s + a)[..|s + a| - 1] == s + a[..|a| - 1];
      TrimsEnd(s, a[..|a| - 1]);
    }
  }

  // Blanks and line breaks typed around a share change nothing.
  lemma SpaceIgnored(a: string, s: string, b: string)
    requires Blank(a) && Blank(b) && s != [] && !IsSpace(s[0]) && !IsSpace(s[|s| - 1])
    ensures ParseShare(a + s + b) == ParseShare(s)
  {
    hide IsSpace, TrimStart, TrimEnd, Base64.UrlDecode, Base64.Decode, ParsePayload, ParseLegacy;
    assert a + s + b == a + (s + b);
    TrimsStart(a, s + b);
    StartStays(s + b); StartStays(s);
    TrimsEnd(s, b);
  }

  lemma StartStays(s: string)
    requires s != [] && !IsSpace(s[0])
    ensures TrimStart(s) == s
  {
    hide IsSpace;
  }

  // ---------------------------------------------------------------------
  // Splitting
  // ---------------------------------------------------------------------

  // Who may split what: a key of 32 bytes, k-of-n with n up to 255, and either
  // no generation, which draws one at random, or one of 32 hexadecimal digits.
  lemma SplitsExactly(vmk: seq<Byte>, k: int, n: int, generation: Option<string>, random: seq<Byte>,
                      coeffs: seq<seq<Byte>>)
    requires |random| == 16 && (ValidPolicy(k, n) ==> Coefficients(coeffs, k))
    ensures ValidPolicy(k, n) <==> 1 <= k <= n <= 255
    ensures Split(vmk, k, n, generation, random, coeffs).Success?
            <==> && |vmk| == 32 && 1 <= k <= n <= 255
                 && (generation.Some? && generation.value != "" ==> |generation.value| == 32 && IsHex(generation.value))
    ensures Split(vmk, k, n, generation, random, coeffs).Success? ==>
              && |Split(vmk, k, n, generation, random, coeffs).value| == n
              && NormalizeGeneration(generation, random).Success?
              && var gen := NormalizeGeneration(generation, random).value;
                 if generation.Some? && generation.value != "" then Hex(gen) == LowerCase(generation.value)
                 else gen == random
  {
    hide PrintShare, IsHex, Hex, LowerCase, ParseHex;
    if generation.Some? && |generation.value| == 32 && IsHex(generation.value) {
      HexRoundTrip(generation.value);
    }
  }

  // The i-th share says which set and policy it is of, that its index is i, and
  // holds the values of the polynomials there.
  lemma SplitShares(vmk: seq<Byte>, k: int, n: int, generation: Option<string>, random: seq<Byte>,
                    coeffs: seq<seq<Byte>>, i: nat)
    requires |vmk| == 32 && |random| == 16 && 1 <= k <= n <= 255 && Coefficients(coeffs, k)
    requires NormalizeGeneration(generation, random).Success? && i < n
    ensures Split(vmk, k, n, generation, random, coeffs).Success?
    ensures i < |Split(vmk, k, n, generation, random, coeffs).value|
    ensures var p := ParseShare(Split(vmk, k, n, generation, random, coeffs).value[i]);
            && p.Success? && !p.value.legacy && p.value.generation == Hex(NormalizeGeneration(generation, random).value)
            && Num(p.value.threshold) == k && Num(p.value.total) == n && Num(p.value.index) == i + 1
            && |p.value.y| == 32
            && forall m :: 0 <= m < 32 ==> p.value.y[m] == Eval([vmk[m]] + Column(coeffs, m), p.value.index)
  {
    hide ParseShare, PrintShare, ByteAt, Hex, NormalizeGeneration, SplitByte, Eval, Num;
    var gen := NormalizeGeneration(generation, random).value;
    PrintedShareParses(vmk, gen, n, coeffs, i + 1);
    ByteAtRoundTrip(k); ByteAtRoundTrip(n); ByteAtRoundTrip(i + 1);
    forall m | 0 <= m < 32
      ensures ShareBytes(vmk, coeffs, ByteAt(i + 1))[m] == Eval([vmk[m]] + Column(coeffs, m), ByteAt(i + 1))
    {
      SplitIsEval(vmk[m], Column(coeffs, m), ByteAt(i + 1));
    }
  }
}
