// k-of-n splitting of the 32-byte vault key, and its reconstruction from k
// printed shares.

module Shamir {
  import opened Wrappers
  import opened Collections
  import opened Field
  import opened Polynomial
  import opened Shares
  import Crc
  import Base64

  const GF_MAX := 255

  datatype ShamirError =
    | KeyLength
    | PolicyRejected
    | GenerationRejected
    | ThresholdRejected
    | WrongCount
    | ShareRejected(reason: ShareError)
    | LegacyInGeneration
    | MixedFormats
    | DifferentSets
    | WrongThreshold
    | DuplicateShares

  // ---------------------------------------------------------------------
  // Splitting
  // ---------------------------------------------------------------------

  predicate ValidPolicy(threshold: int, total: int) {
    1 <= threshold <= total <= GF_MAX
  }

  // The generation given, or a random one if it is absent or empty.
  function NormalizeGeneration(generation: Option<string>, random: seq<Byte>): (r: Result<seq<Byte>, ShamirError>)
    requires |random| == 16
    ensures r.Success? ==> |r.value| == 16
  {
    match generation
    case None => Success(random)
    case Some(g) =>
      if g == "" then Success(random)
      else if |g| != 32 || !IsHex(g) then Failure(GenerationRejected)
      else Success(ParseHex(g))
  }

  // k-1 rows of random bytes
  predicate Coefficients(coeffs: seq<seq<Byte>>, k: int) {
    |coeffs| == k - 1 && forall j :: 0 <= j < |coeffs| ==> |coeffs[j]| == 32
  }

  function Column(rows: seq<seq<Byte>>, i: nat): (c: seq<Byte>)
    requires forall j :: 0 <= j < |rows| ==> i < |rows[j]|
    ensures |c| == |rows|
  {
    seq(|rows|, j requires 0 <= j < |rows| => rows[j][i])
  }

  // The inner loop of splitVMK after j rounds, for one byte position.
  function SplitByte(secret: Byte, cs: seq<Byte>, x: Byte, j: nat): Byte
    requires j <= |cs|
  {
    if j == 0 then secret
    else GfAdd(SplitByte(secret, cs, x, j - 1), GfMul(cs[j - 1], GfPow(x, j)))
  }

  function ShareBytes(vmk: seq<Byte>, coeffs: seq<seq<Byte>>, x: Byte): (y: seq<Byte>)
    requires |vmk| == 32 && Coefficients(coeffs, |coeffs| + 1)
    ensures |y| == 32
  {
    seq(32, i requires 0 <= i < 32 => SplitByte(vmk[i], Column(coeffs, i), x, |coeffs|))
  }

  function PrintShare(vmk: seq<Byte>, gen: seq<Byte>, total: int, coeffs: seq<seq<Byte>>, x: int): string
    requires |vmk| == 32 && 1 <= x <= total <= 255 && Coefficients(coeffs, |coeffs| + 1) && |coeffs| < total
  {
    Print(gen, ByteAt(|coeffs| + 1), ByteAt(total), ByteAt(x), ShareBytes(vmk, coeffs, ByteAt(x)))
  }

  function Split(vmk: seq<Byte>, threshold: int, total: int, generation: Option<string>,
                 random: seq<Byte>, coeffs: seq<seq<Byte>>): Result<seq<string>, ShamirError>
    requires |random| == 16
    requires ValidPolicy(threshold, total) ==> Coefficients(coeffs, threshold)
  {
    if |vmk| != 32 then Failure(KeyLength)
    else if !ValidPolicy(threshold, total) then Failure(PolicyRejected)
    else
      match NormalizeGeneration(generation, random)
      case Failure(e) => Failure(e)
      case Success(gen) =>
        Success(seq(total, i requires 0 <= i < total => PrintShare(vmk, gen, total, coeffs, i + 1)))
  }

  // ---------------------------------------------------------------------
  // Reconstruction
  // ---------------------------------------------------------------------

  predicate WholeShares(ps: seq<ParsedShare>) {
    forall j :: 0 <= j < |ps| ==> |ps[j].y| == 32
  }

  function ParseAll(shares: seq<string>): (r: Result<seq<ParsedShare>, ShareError>)
    ensures r.Success? ==> |r.value| == |shares|
    ensures r.Success? ==> WholeShares(r.value)
  {
    if shares == [] then Success([])
    else
      match ParseShare(shares[0])
      case Failure(e) => Failure(e)
      case Success(p) =>
        ParsedLength(shares[0]);
        match ParseAll(shares[1..])
        case Failure(e) => Failure(e)
        case Success(ps) => Success([p] + ps)
  }

  predicate AllModern(ps: seq<ParsedShare>) { forall i :: 0 <= i < |ps| ==> !ps[i].legacy }

  predicate AllLegacy(ps: seq<ParsedShare>) { forall i :: 0 <= i < |ps| ==> ps[i].legacy }

  predicate SameSet(ps: seq<ParsedShare>, generation: string) {
    forall i :: 0 <= i < |ps| ==>
      ps[i].generation == generation && ps[i].threshold == ps[0].threshold && ps[i].total == ps[0].total
  }

  function Indexes(ps: seq<ParsedShare>): (xs: seq<Byte>)
    ensures |xs| == |ps|
  {
    seq(|ps|, i requires 0 <= i < |ps| => ps[i].index)
  }

  function Ordinates(ps: seq<ParsedShare>, i: nat): (ys: seq<Byte>)
    requires forall j :: 0 <= j < |ps| ==> i < |ps[j].y|
    ensures |ys| == |ps|
  {
    seq(|ps|, j requires 0 <= j < |ps| => ps[j].y[i])
  }

  function Interpolate(ps: seq<ParsedShare>): (key: seq<Byte>)
    requires WholeShares(ps) && Distinct(Indexes(ps))
    ensures |key| == 32
  {
    seq(32, i requires 0 <= i < 32 => Lagrange(Indexes(ps), Ordinates(ps, i), |ps|))
  }

  function CheckSet(ps: seq<ParsedShare>, threshold: int, expected: Option<string>): Option<ShamirError>
    requires |ps| == threshold >= 1
  {
    if expected.Some? && expected.value != "" && AllLegacy(ps) then Some(LegacyInGeneration)
    else if !AllLegacy(ps) && !AllModern(ps) then Some(MixedFormats)
    else if AllModern(ps) && !SameSet(ps, if expected.Some? then LowerCase(expected.value) else ps[0].generation) then
      Some(DifferentSets)
    else if AllModern(ps) && Num(ps[0].threshold) != threshold then Some(WrongThreshold)
    else if !Distinct(Indexes(ps)) then Some(DuplicateShares)
    else None
  }

  function Reconstruct(shares: seq<string>, threshold: int, expected: Option<string>): Result<seq<Byte>, ShamirError>
  {
    if threshold < 1 then Failure(ThresholdRejected)
    else if |shares| != threshold then Failure(WrongCount)
    else
      match ParseAll(shares)
      case Failure(e) => Failure(ShareRejected(e))
      case Success(ps) =>
        match CheckSet(ps, threshold, expected)
        case Some(e) => Failure(e)
        case None => Success(Interpolate(ps))
  }

  // ---------------------------------------------------------------------
  // splitVMK's inner loop evaluates a polynomial
  // ---------------------------------------------------------------------

  lemma {:induction false} SplitByteIsEval(secret: Byte, cs: seq<Byte>, x: Byte, j: nat)
    requires j <= |cs|
    ensures SplitByte(secret, cs, x, j) == Eval([secret] + cs[..j], x)
  {
    hide GfAdd, GfMul, GfPow, Eval;
    if j == 0 {
      assert [secret] + cs[..0] == [secret];
      EvalConstant(secret, x);
    } else {
      SplitByteIsEval(secret, cs, x, j - 1);
      EvalSnoc([secret] + cs[..j - 1], cs[j - 1], x);
      assert [secret] + cs[..j] == [secret] + cs[..j - 1] + [cs[j - 1]];
    }
  }

  lemma SplitIsEval(secret: Byte, cs: seq<Byte>, x: Byte)
    ensures SplitByte(secret, cs, x, |cs|) == Eval([secret] + cs, x)
  {
    SplitByteIsEval(secret, cs, x, |cs|);
    assert cs[..|cs|] == cs;
  }

  // ---------------------------------------------------------------------
  // Any k shares give back the key
  // ---------------------------------------------------------------------

  function Pick<T>(s: seq<T>, picks: seq<nat>): (r: seq<T>)
    requires forall i :: 0 <= i < |picks| ==> picks[i] < |s|
    ensures |r| == |picks|
  {
    seq(|picks|, i requires 0 <= i < |picks| => s[picks[i]])
  }

  // The shares, as parsed, of the indices one above picks.
  function ParsedPicks(vmk: seq<Byte>, gen: seq<Byte>, total: int, coeffs: seq<seq<Byte>>,
                       picks: seq<nat>): (ps: seq<ParsedShare>)
    requires |vmk| == 32 && Coefficients(coeffs, |coeffs| + 1) && |coeffs| < total <= 255
    requires forall i :: 0 <= i < |picks| ==> picks[i] < total
    ensures |ps| == |picks|
  {
    seq(|picks|, i requires 0 <= i < |picks| =>
      var x := ByteAt(picks[i] + 1);
      ParsedShare(VERSION, Hex(gen), ByteAt(|coeffs| + 1), ByteAt(total), x, ShareBytes(vmk, coeffs, x), false))
  }

  lemma ByteOrder(m: int, n: int)
    requires 0 <= m <= n < 256
    ensures ByteAt(m) <= ByteAt(n)
    ensures ByteAt(m) == ByteAt(n) ==> m == n
    ensures m >= 1 ==> ByteAt(m) >= 1
  {
    hide Num, ByteAt;
    ByteAtRoundTrip(m); ByteAtRoundTrip(n);
    NumOrder(ByteAt(m), ByteAt(n)); NumOrder(1, ByteAt(m));
    NumOne();
  }

  lemma NumOrder(a: Byte, b: Byte)
    ensures Num(a) <= Num(b) <==> a <= b
  {}

  lemma NumOne()
    ensures Num(1) == 1
  {}

  lemma PrintedShareParses(vmk: seq<Byte>, gen: seq<Byte>, total: int, coeffs: seq<seq<Byte>>, x: int)
    requires |vmk| == 32 && 1 <= x <= total <= 255 && Coefficients(coeffs, |coeffs| + 1) && |coeffs| < total
    requires |gen| == 16
    ensures ParseShare(PrintShare(vmk, gen, total, coeffs, x))
         == Success(ParsedShare(VERSION, Hex(gen), ByteAt(|coeffs| + 1), ByteAt(total), ByteAt(x),
                                ShareBytes(vmk, coeffs, ByteAt(x)), false))
  {
    hide ParseShare, Print, ByteAt, Hex, ShareBytes;
    ByteOrder(x, total); ByteOrder(|coeffs| + 1, total);
    ParseInvertsPrint(gen, ByteAt(|coeffs| + 1), ByteAt(total), ByteAt(x), ShareBytes(vmk, coeffs, ByteAt(x)));
  }

  lemma {:induction false} ParseAllIs(shares: seq<string>, ps: seq<ParsedShare>)
    requires |shares| == |ps|
    requires forall i :: 0 <= i < |ps| ==> ParseShare(shares[i]) == Success(ps[i])
    ensures ParseAll(shares) == Success(ps)
  {
    hide ParseShare;
    if ps != [] {
      ParseAllIs(shares[1..], ps[1..]);
      assert ps == [ps[0]] + ps[1..];
    }
  }

  lemma PicksDistinct(vmk: seq<Byte>, gen: seq<Byte>, total: int, coeffs: seq<seq<Byte>>, picks: seq<nat>)
    requires |vmk| == 32 && Coefficients(coeffs, |coeffs| + 1) && |coeffs| < total <= 255
    requires forall i :: 0 <= i < |picks| ==> picks[i] < total
    requires Distinct(picks)
    ensures Distinct(Indexes(ParsedPicks(vmk, gen, total, coeffs, picks)))
  {
    hide ByteAt, ShareBytes, Hex;
    var xs := Indexes(ParsedPicks(vmk, gen, total, coeffs, picks));
    forall i, j | 0 <= i < j < |xs| ensures xs[i] != xs[j] {
      ByteOrder(picks[i] + 1, if picks[i] < picks[j] then picks[j] + 1 else picks[i] + 1);
      ByteOrder(picks[j] + 1, if picks[i] < picks[j] then picks[j] + 1 else picks[i] + 1);
    }
  }

  lemma InterpolateRecovers(vmk: seq<Byte>, gen: seq<Byte>, total: int, coeffs: seq<seq<Byte>>, picks: seq<nat>)
    requires |vmk| == 32 && Coefficients(coeffs, |coeffs| + 1) && |coeffs| < total <= 255
    requires forall i :: 0 <= i < |picks| ==> picks[i] < total
    requires |picks| == |coeffs| + 1
    requires Distinct(Indexes(ParsedPicks(vmk, gen, total, coeffs, picks)))
    ensures var ps := ParsedPicks(vmk, gen, total, coeffs, picks); WholeShares(ps) && Interpolate(ps) == vmk
  {
    hide ByteAt, Hex, Eval, Lagrange, SplitByte, Distinct;
    var ps := ParsedPicks(vmk, gen, total, coeffs, picks);
    var xs := Indexes(ps);
    forall i | 0 <= i < 32 ensures Interpolate(ps)[i] == vmk[i] {
      var cs, ys := Column(coeffs, i), Ordinates(ps, i);
      forall j | 0 <= j < |ps| ensures Eval([vmk[i]] + cs, xs[j]) == ys[j] {
        SplitIsEval(vmk[i], cs, xs[j]);
      }
      LagrangeRecovers([vmk[i]] + cs, xs, ys);
    }
    assert Interpolate(ps) == vmk;
  }

  // For every key, policy, generation and choice of coefficients, any k of the
  // printed shares, in any order, reconstruct exactly the key.
  lemma SplitThenReconstruct(vmk: seq<Byte>, k: int, n: int, generation: Option<string>, random: seq<Byte>,
                             coeffs: seq<seq<Byte>>, picks: seq<nat>, expected: Option<string>)
    requires |vmk| == 32 && ValidPolicy(k, n) && |random| == 16 && Coefficients(coeffs, k)
    requires NormalizeGeneration(generation, random).Success?
    requires |picks| == k && Distinct(picks) && forall i :: 0 <= i < k ==> picks[i] < n
    requires expected.Some? ==>
               LowerCase(expected.value) == Hex(NormalizeGeneration(generation, random).value)
    ensures Split(vmk, k, n, generation, random, coeffs).Success?
    ensures |Split(vmk, k, n, generation, random, coeffs).value| == n
    ensures Reconstruct(Pick(Split(vmk, k, n, generation, random, coeffs).value, picks), k, expected) == Success(vmk)
  {
    hide ParseShare, PrintShare, ByteAt, Hex, ShareBytes, Lagrange, NormalizeGeneration, Interpolate, Distinct,
        LowerCase, Num;
    var gen := NormalizeGeneration(generation, random).value;
    var shares := Pick(Split(vmk, k, n, generation, random, coeffs).value, picks);
    var ps := ParsedPicks(vmk, gen, n, coeffs, picks);
    forall i | 0 <= i < k ensures ParseShare(shares[i]) == Success(ps[i]) {
      PrintedShareParses(vmk, gen, n, coeffs, picks[i] + 1);
    }
    ParseAllIs(shares, ps);
    PicksDistinct(vmk, gen, n, coeffs, picks);
    InterpolateRecovers(vmk, gen, n, coeffs, picks);
    ByteAtRoundTrip(k);
    assert AllModern(ps) && !AllLegacy(ps) by { assert !ps[0].legacy; }
  }

  // ---------------------------------------------------------------------
  // Fewer than k shares tell nothing
  // ---------------------------------------------------------------------

  // The coefficients that carry one secret byte through given points.
  function Fit(secret: Byte, xs: seq<Byte>, ys: seq<Byte>): (cs: seq<Byte>)
    requires |xs| == |ys| && Distinct([0] + xs)
    ensures |cs| == |xs|
  {
    Interpolant([0] + xs, [secret] + ys, |xs| + 1)[1..]
  }

  lemma FitIsUnique(secret: Byte, xs: seq<Byte>, ys: seq<Byte>)
    requires |xs| == |ys| && Distinct([0] + xs)
    ensures forall m :: 0 <= m < |xs| ==> SplitByte(secret, Fit(secret, xs, ys), xs[m], |xs|) == ys[m]
    ensures forall cs: seq<Byte> :: |cs| == |xs| &&
              (forall m :: 0 <= m < |xs| ==> SplitByte(secret, cs, xs[m], |xs|) == ys[m])
              ==> cs == Fit(secret, xs, ys)
  {
    hide Eval, Interpolant, SplitByte, Distinct;
    var xs0, ys0 := [0] + xs, [secret] + ys;
    var p := Interpolant(xs0, ys0, |xs| + 1);
    InterpolantAgrees(xs0, ys0);
    assert Eval(p, xs0[0]) == ys0[0];
    EvalAtZero(p);
    assert p == [secret] + Fit(secret, xs, ys);
    forall m | 0 <= m < |xs| ensures SplitByte(secret, Fit(secret, xs, ys), xs[m], |xs|) == ys[m] {
      assert xs0[m + 1] == xs[m] && ys0[m + 1] == ys[m];
      SplitIsEval(secret, Fit(secret, xs, ys), xs[m]);
    }
    forall cs: seq<Byte> | |cs| == |xs| && (forall m :: 0 <= m < |xs| ==> SplitByte(secret, cs, xs[m], |xs|) == ys[m])
      ensures cs == Fit(secret, xs, ys)
    {
      var q := [secret] + cs;
      forall i | 0 <= i < |xs0| ensures Eval(q, xs0[i]) == ys0[i] {
        if i == 0 {
          EvalAtZero(q);
        } else {
          assert xs0[i] == xs[i - 1];
          SplitIsEval(secret, cs, xs[i - 1]);
        }
      }
      Unique(q, p, xs0, ys0);
      assert q[1..] == cs;
    }
  }

  function FitRows(key: seq<Byte>, xs: seq<Byte>, rows: seq<seq<Byte>>): (coeffs: seq<seq<Byte>>)
    requires |key| == 32 && |xs| == |rows| && Distinct([0] + xs) && Coefficients(rows, |rows| + 1)
    ensures Coefficients(coeffs, |xs| + 1)
  {
    seq(|xs|, j requires 0 <= j < |xs| =>
      seq(32, i requires 0 <= i < 32 => Fit(key[i], xs, Column(rows, i))[j]))
  }

  // Whatever bytes any k-1 shares hold, they come from every 32-byte key: each
  // is split into them by exactly one choice of the coefficients.
  lemma FewerSharesFitEveryKey(key: seq<Byte>, xs: seq<Byte>, rows: seq<seq<Byte>>, coeffs: seq<seq<Byte>>)
    requires |key| == 32 && |xs| == |rows| && Coefficients(rows, |rows| + 1)
    requires Distinct(xs) && 0 !in xs
    requires Coefficients(coeffs, |xs| + 1)
    ensures Distinct([0] + xs)
    ensures (forall m :: 0 <= m < |xs| ==> ShareBytes(key, coeffs, xs[m]) == rows[m])
       <==> coeffs == FitRows(key, xs, rows)
  {
    hide SplitByte, Fit;
    ZeroIsNew(xs);
    var fit := FitRows(key, xs, rows);
    forall i | 0 <= i < 32 ensures Column(fit, i) == Fit(key[i], xs, Column(rows, i)) {}
    if coeffs == fit {
      forall m | 0 <= m < |xs| ensures ShareBytes(key, coeffs, xs[m]) == rows[m] {
        forall i | 0 <= i < 32 ensures ShareBytes(key, coeffs, xs[m])[i] == rows[m][i] {
          FitIsUnique(key[i], xs, Column(rows, i));
        }
      }
    }
    if forall m :: 0 <= m < |xs| ==> ShareBytes(key, coeffs, xs[m]) == rows[m] {
      forall i | 0 <= i < 32 ensures Column(coeffs, i) == Column(fit, i) {
        ColumnIsFit(key, xs, rows, coeffs, i);
      }
      RowsFromColumns(coeffs, fit);
    }
  }

  lemma ZeroIsNew(xs: seq<Byte>)
    requires Distinct(xs) && 0 !in xs
    ensures Distinct([0] + xs)
  {
    var zs := [0] + xs;
    forall i, j | 0 <= i < j < |zs| ensures zs[i] != zs[j] {
      assert zs[j] == xs[j - 1];
      if i == 0 { assert xs[j - 1] in xs; } else { assert zs[i] == xs[i - 1]; }
    }
  }

  lemma ColumnIsFit(key: seq<Byte>, xs: seq<Byte>, rows: seq<seq<Byte>>, coeffs: seq<seq<Byte>>, i: nat)
    requires |key| == 32 && |xs| == |rows| && Coefficients(rows, |rows| + 1) && i < 32
    requires Distinct([0] + xs) && Coefficients(coeffs, |xs| + 1)
    requires forall m :: 0 <= m < |xs| ==> ShareBytes(key, coeffs, xs[m]) == rows[m]
    ensures Column(coeffs, i) == Fit(key[i], xs, Column(rows, i))
  {
    hide SplitByte, Fit, Distinct;
    var cs := Column(coeffs, i);
    forall m | 0 <= m < |xs| ensures SplitByte(key[i], cs, xs[m], |xs|) == Column(rows, i)[m] {
      assert ShareBytes(key, coeffs, xs[m])[i] == rows[m][i];
    }
    FitIsUnique(key[i], xs, Column(rows, i));
  }

  lemma RowsFromColumns(a: seq<seq<Byte>>, b: seq<seq<Byte>>)
    requires |a| == |b| && Coefficients(a, |a| + 1) && Coefficients(b, |b| + 1)
    requires forall i :: 0 <= i < 32 ==> Column(a, i) == Column(b, i)
    ensures a == b
  {
    forall j | 0 <= j < |a| ensures a[j] == b[j] {
      forall i | 0 <= i < 32 ensures a[j][i] == b[j][i] {
        assert Column(a, i)[j] == Column(b, i)[j];
      }
    }
  }

  // ---------------------------------------------------------------------
  // The browser's loops
  // ---------------------------------------------------------------------

  method ComputeShareBytes(vmk: seq<Byte>, coeffs: seq<seq<Byte>>, x: Byte) returns (y: array<Byte>)
    requires |vmk| == 32 && Coefficients(coeffs, |coeffs| + 1)
    ensures fresh(y) && y[..] == ShareBytes(vmk, coeffs, x)
  {
    hide GfAdd, GfMul, GfPow;
    y := new Byte[32](_ => 0);
    for i := 0 to 32
      invariant y[..i] == ShareBytes(vmk, coeffs, x)[..i]
    {
      var v := vmk[i];
      for j := 0 to |coeffs|
        invariant v == SplitByte(vmk[i], Column(coeffs, i), x, j)
      {
        v := GfAdd(v, GfMul(coeffs[j][i], GfPow(x, j + 1)));
      }
      y[i] := v;
    }
  }

  // The typed array's set: copies bytes to an offset.
  method SetBytes(a: array<Byte>, bytes: seq<Byte>, offset: nat)
    requires offset + |bytes| <= a.Length
    modifies a
    ensures a[..] == old(a[..offset]) + bytes + old(a[offset + |bytes|..])
  {
    for i := 0 to |bytes|
      invariant a[..] == old(a[..offset]) + bytes[..i] + old(a[offset + i..])
    {
      a[offset + i] := bytes[i];
    }
    assert bytes[..|bytes|] == bytes;
  }

  method PrintPayload(table: array<Crc.Word>, gen: seq<Byte>, k: Byte, n: Byte, x: Byte, y: seq<Byte>)
    returns (s: string)
    requires table[..] == Crc.CrcTable() && |gen| == 16 && |y| == 32
    ensures s == Print(gen, k, n, x, y)
  {
    hide Crc.CrcTable, Crc.Crc32, Base64.UrlEncode, WordBytes;
    var payload := new Byte[56](_ => 0);
    SetBytes(payload, [VERSION], 0);
    SetBytes(payload, gen, 1);
    assert payload[..17] == [VERSION] + gen;
    SetBytes(payload, [k, n, x], 17);
    assert payload[..20] == [VERSION] + gen + [k, n, x];
    SetBytes(payload, y, 20);
    assert payload[..52] == Header(gen, k, n, x, y);
    var c := Crc.ComputeCrc32(table, payload[..52]);
    WordLength(c);
    SetBytes(payload, WordBytes(c), 52);
    assert payload[..] == Payload(gen, k, n, x, y);
    var u := Base64.ComputeUrlEncode(payload[..]);
    s := PREFIX + u;
  }

  method SplitVMK(table: array<Crc.Word>, vmk: seq<Byte>, threshold: int, total: int, generation: Option<string>,
                  random: seq<Byte>, coeffs: seq<seq<Byte>>) returns (r: Result<seq<string>, ShamirError>)
    requires table[..] == Crc.CrcTable() && |random| == 16
    requires ValidPolicy(threshold, total) ==> Coefficients(coeffs, threshold)
    ensures r == Split(vmk, threshold, total, generation, random, coeffs)
  {
    hide Print, ShareBytes, ByteAt, NormalizeGeneration;
    if |vmk| != 32 { return Failure(KeyLength); }
    if !ValidPolicy(threshold, total) { return Failure(PolicyRejected); }
    var normalized := NormalizeGeneration(generation, random);
    if normalized.Failure? { return Failure(normalized.error); }
    var gen := normalized.value;
    ghost var all := Split(vmk, threshold, total, generation, random, coeffs).value;
    var shares: seq<string> := [];
    for x := 1 to total + 1
      invariant shares == all[..x - 1]
    {
      var y := ComputeShareBytes(vmk, coeffs, ByteAt(x));
      var s := PrintPayload(table, gen, ByteAt(threshold), ByteAt(total), ByteAt(x), y[..]);
      assert s == all[x - 1];
      shares := shares + [s];
    }
    assert all[..total] == all;
    r := Success(shares);
  }

  // Lagrange interpolation at 0, for one byte position.
  method InterpolateByte(ps: seq<ParsedShare>, i: nat) returns (acc: Byte)
    requires WholeShares(ps) && Distinct(Indexes(ps)) && i < 32
    ensures acc == Lagrange(Indexes(ps), Ordinates(ps, i), |ps|)
  {
    hide GfAdd, GfMul, Quotient, Distinct;
    ghost var xs := Indexes(ps);
    acc := 0;
    for j := 0 to |ps|
      invariant acc == Lagrange(xs, Ordinates(ps, i), j)
    {
      var num: Byte, den: Byte := 1, 1;
      for m := 0 to |ps|
        invariant num == Numerator(xs, j, m) && den == Denominator(xs, j, m)
      {
        if m != j {
          num := GfMul(num, ps[m].index);
          den := GfMul(den, GfAdd(ps[m].index, ps[j].index));
        }
      }
      DenominatorNonzero(xs, j, |ps|);
      var q := GfDiv(num, den);
      acc := GfAdd(acc, GfMul(ps[j].y[i], q.value));
    }
  }

  method ComputeInterpolation(ps: seq<ParsedShare>) returns (out: array<Byte>)
    requires WholeShares(ps) && Distinct(Indexes(ps))
    ensures fresh(out) && out[..] == Interpolate(ps)
  {
    hide Lagrange, Distinct;
    out := new Byte[32](_ => 0);
    for i := 0 to 32
      invariant out[..i] == Interpolate(ps)[..i]
    {
      var acc := InterpolateByte(ps, i);
      out[i] := acc;
    }
  }

  method ReconstructVMK(shares: seq<string>, threshold: int, expected: Option<string>)
    returns (r: Result<seq<Byte>, ShamirError>)
    ensures r == Reconstruct(shares, threshold, expected)
  {
    hide ParseShare, Interpolate, CheckSet;
    if threshold < 1 { return Failure(ThresholdRejected); }
    if |shares| != threshold { return Failure(WrongCount); }
    var parsed := ParseAll(shares);
    if parsed.Failure? { return Failure(ShareRejected(parsed.error)); }
    var ps := parsed.value;
    var refused := CheckSet(ps, threshold, expected);
    if refused.Some? { return Failure(refused.value); }
    CheckedDistinct(ps, threshold, expected);
    var out := ComputeInterpolation(ps);
    r := Success(out[..]);
  }

  lemma CheckedDistinct(ps: seq<ParsedShare>, threshold: int, expected: Option<string>)
    requires |ps| == threshold >= 1 && CheckSet(ps, threshold, expected) == None
    ensures Distinct(Indexes(ps))
  {}
}
