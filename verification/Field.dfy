// GF(256) as the browser builds it: exponential and logarithm tables over the
// generator 3, and the four table-driven operations on bytes.

module Field {
  import opened Wrappers
  import opened Collections

  type Byte = bv8

  // ---------------------------------------------------------------------
  // The source's operations
  // ---------------------------------------------------------------------

  // Multiplication by x modulo x^8 + x^4 + x^3 + x + 1. On eight bits the
  // reduction by 0x11b followed by the mask 0xff is an exclusive or with 0x1b.
  function Xtime(a: Byte): Byte {
    if a & 0x80 != 0 then (a << 1) ^ 0x1b else a << 1
  }

  // The step of the table builder: multiplication by 3.
  function Triple(a: Byte): Byte {
    Xtime(a) ^ a
  }

  // The value of the loop variable of the table builder before round n.
  function Power3(n: nat): Byte {
    if n == 0 then 1 else Triple(Power3(n - 1))
  }

  // A byte as an array index.
  function Num(b: Byte): (n: int)
    ensures 0 <= n < 256
  {
    b as int
  }

  function ByteAt(n: int): Byte
    requires 0 <= n < 256
  {
    n as Byte
  }

  // Counting up from zero reaches every byte.
  function Counted(n: nat): Byte
    requires n < 256
  {
    if n == 0 then 0 else Counted(n - 1) + 1
  }

  lemma NextByte(b: Byte)
    requires b as int < 255
    ensures (b + 1) as int == b as int + 1
  {}

  lemma {:induction false} CountedIs(n: nat)
    requires n < 256
    ensures Counted(n) as int == n
  {
    if n > 0 {
      CountedIs(n - 1);
      NextByte(Counted(n - 1));
    }
  }

  lemma CastBack(b: Byte)
    ensures (b as int) as Byte == b
  {}

  lemma ByteAtRoundTrip(n: int)
    requires 0 <= n < 256
    ensures Num(ByteAt(n)) == n
  {
    hide Counted;
    CountedIs(n);
    CastBack(Counted(n));
  }

  // The round, searched from n on, in which the builder meets the byte b;
  // 0 if it never does.
  function SearchLog(b: int, n: nat): (l: nat)
    requires n <= 255
    ensures l < 255
    ensures l != 0 ==> Num(Power3(l)) == b
    decreases 255 - n
  {
    if n == 255 then 0 else if Num(Power3(n)) == b then n else SearchLog(b, n + 1)
  }

  function ExpAt(i: nat): Byte {
    Power3(i % 255)
  }

  function LogAt(b: nat): (l: nat)
    ensures l < 255
  {
    SearchLog(b, 0)
  }

  function ExpTable(): seq<Byte> {
    seq(512, i requires 0 <= i => ExpAt(i))
  }

  function LogTable(): seq<nat> {
    seq(256, b requires 0 <= b => LogAt(b))
  }

  function LogOf(a: Byte): (l: nat)
    ensures l < 255
  {
    LogTable()[Num(a)]
  }

  function GfAdd(a: Byte, b: Byte): Byte {
    a ^ b
  }

  function GfMul(a: Byte, b: Byte): Byte {
    if a == 0 || b == 0 then 0
    else ExpTable()[LogOf(a) + LogOf(b)]
  }

  // gfDiv where it does not throw.
  function Quotient(a: Byte, b: Byte): Byte
    requires b != 0
  {
    if a == 0 then 0
    else ExpTable()[(LogOf(a) - LogOf(b) + 255) % 255]
  }

  function GfDiv(a: Byte, b: Byte): Result<Byte, string> {
    if b == 0 then Failure("GF(256) division by zero") else Success(Quotient(a, b))
  }

  function GfPow(a: Byte, e: nat): Byte {
    if e == 0 then 1
    else if a == 0 then 0
    else ExpTable()[(LogOf(a) * e) % 255]
  }

  // ---------------------------------------------------------------------
  // Reference: multiplication of polynomials over GF(2) modulo
  // x^8 + x^4 + x^3 + x + 1 (section 4.2 of FIPS 197).
  // ---------------------------------------------------------------------

  function Product(a: Byte, b: Byte): Byte
    decreases b
  {
    if b == 0 then 0 else GfAdd(Select(b, a), Product(Xtime(a), Half(b)))
  }

  // a if the low bit of b is set, and 0 otherwise
  function Select(b: Byte, a: Byte): Byte {
    (b & 1) * a
  }

  function Half(b: Byte): (h: Byte)
    ensures b != 0 ==> h < b
  {
    b >> 1
  }

  // Exclusive or is an addition in which every byte is its own opposite.
  lemma AddLaws(a: Byte, b: Byte, c: Byte)
    ensures GfAdd(a, 0) == a && GfAdd(0, a) == a && GfAdd(a, a) == 0
    ensures GfAdd(a, b) == GfAdd(b, a)
    ensures GfAdd(GfAdd(a, b), c) == GfAdd(a, GfAdd(b, c))
  {}

  lemma AddSwap(a: Byte, b: Byte, c: Byte, d: Byte)
    ensures GfAdd(GfAdd(a, b), GfAdd(c, d)) == GfAdd(GfAdd(a, c), GfAdd(b, d))
  {
    assert (a ^ b) ^ (c ^ d) == (a ^ c) ^ (b ^ d);
  }

  // Branch-free form of Xtime, in which the solver sees its linearity.
  lemma XtimeShape(a: Byte)
    ensures Xtime(a) == (a << 1) ^ ((a >> 7) * 0x1b)
  {}

  lemma XtimeAdds(a: Byte, b: Byte)
    ensures Xtime(GfAdd(a, b)) == GfAdd(Xtime(a), Xtime(b))
  {
    XtimeShape(a); XtimeShape(b); XtimeShape(a ^ b);
  }

  lemma XtimeZero()
    ensures Xtime(0) == 0
  {}

  lemma SelectXtime(b: Byte, a: Byte)
    ensures Select(b, Xtime(a)) == Xtime(Select(b, a))
  {
    XtimeShape(a); XtimeShape((b & 1) * a);
    assert (((b & 1) * a) << 1) ^ ((((b & 1) * a) >> 7) * 0x1b) == (b & 1) * ((a << 1) ^ ((a >> 7) * 0x1b));
  }

  lemma BitsAdd(b: Byte, c: Byte, a: Byte)
    ensures Half(GfAdd(b, c)) == GfAdd(Half(b), Half(c))
    ensures Select(GfAdd(b, c), a) == GfAdd(Select(b, a), Select(c, a))
    ensures Half(0) == 0 && Select(0, a) == 0
  {}

  lemma ProductStep(a: Byte, b: Byte)
    ensures Product(a, b) == GfAdd(Select(b, a), Product(Xtime(a), Half(b)))
    ensures Product(a, 0) == 0
  {
    if b == 0 {
      assert Half(0) == 0 && Select(0, a) == 0 && GfAdd(0, 0) == 0;
    }
  }

  lemma {:induction false} ProductAdds(a: Byte, b: Byte, c: Byte)
    ensures Product(a, GfAdd(b, c)) == GfAdd(Product(a, b), Product(a, c))
    decreases b
  {
    hide *;
    ProductStep(a, b); ProductStep(a, c); ProductStep(a, GfAdd(b, c));
    AddLaws(c, 0, 0); AddLaws(Product(a, c), 0, 0);
    if b != 0 {
      ProductAdds(Xtime(a), Half(b), Half(c));
      BitsAdd(b, c, a);
      AddSwap(Select(b, a), Product(Xtime(a), Half(b)), Select(c, a), Product(Xtime(a), Half(c)));
    }
  }

  lemma {:induction false} ProductXtimeLeft(a: Byte, b: Byte)
    ensures Product(Xtime(a), b) == Xtime(Product(a, b))
    decreases b
  {
    hide *;
    ProductStep(a, b); ProductStep(Xtime(a), b);
    if b == 0 {
      XtimeZero();
    } else {
      ProductXtimeLeft(Xtime(a), Half(b));
      XtimeAdds(Select(b, a), Product(Xtime(a), Half(b)));
      SelectXtime(b, a);
    }
  }

  // One step on a factor whose low bit is clear, or set.
  lemma EvenStep(a: Byte, b: Byte)
    requires b & 1 == 0
    ensures Product(a, b) == Product(Xtime(a), b >> 1)
  {
    hide Product, Xtime;
    ProductStep(a, b);
    AddLaws(Product(Xtime(a), b >> 1), 0, 0);
  }

  lemma OddStep(a: Byte, b: Byte)
    requires b & 1 == 1
    ensures Product(a, b) == GfAdd(a, Product(Xtime(a), b >> 1))
  {
    hide Product, Xtime;
    ProductStep(a, b);
  }

  lemma ProductOne(a: Byte)
    ensures Product(a, 1) == a
  {
    hide *;
    OddStep(a, 1);
    ProductStep(Xtime(a), 0);
    AddLaws(a, 0, 0);
  }

  // x^8 = x^4 + x^3 + x + 1: the modulus, seen from a byte.
  lemma Modulus(a: Byte)
    ensures Product(Xtime(a), 0x80) == Product(a, 0x1b)
  {
    hide *;
    var a1 := Xtime(a); var a2 := Xtime(a1); var a3 := Xtime(a2); var a4 := Xtime(a3);
    var a5 := Xtime(a4); var a6 := Xtime(a5); var a7 := Xtime(a6); var a8 := Xtime(a7);
    EvenStep(a1, 0x80); EvenStep(a2, 0x40); EvenStep(a3, 0x20); EvenStep(a4, 0x10);
    EvenStep(a5, 8); EvenStep(a6, 4); EvenStep(a7, 2); ProductOne(a8);
    OddStep(a, 0x1b); OddStep(a1, 0xd); EvenStep(a2, 6); OddStep(a3, 3); ProductOne(a4);
    XtimeShape(a); XtimeShape(a1); XtimeShape(a2); XtimeShape(a3);
    XtimeShape(a4); XtimeShape(a5); XtimeShape(a6); XtimeShape(a7);
    EighthShift(a, a1, a2, a3, a4, a5, a6, a7, a8);
  }

  lemma EighthShift(a: Byte, a1: Byte, a2: Byte, a3: Byte, a4: Byte, a5: Byte, a6: Byte, a7: Byte, a8: Byte)
    requires a1 == (a << 1) ^ ((a >> 7) * 0x1b)
    requires a2 == (a1 << 1) ^ ((a1 >> 7) * 0x1b)
    requires a3 == (a2 << 1) ^ ((a2 >> 7) * 0x1b)
    requires a4 == (a3 << 1) ^ ((a3 >> 7) * 0x1b)
    requires a5 == (a4 << 1) ^ ((a4 >> 7) * 0x1b)
    requires a6 == (a5 << 1) ^ ((a5 >> 7) * 0x1b)
    requires a7 == (a6 << 1) ^ ((a6 >> 7) * 0x1b)
    requires a8 == (a7 << 1) ^ ((a7 >> 7) * 0x1b)
    ensures a8 == GfAdd(a, GfAdd(a1, GfAdd(a3, a4)))
  {}

  // A byte is its seven low bits plus its high bit; shifting moves the former
  // and turns the latter into the reduction 0x1b.
  lemma Halves(b: Byte)
    ensures b == GfAdd(b & 0x7f, b & 0x80)
    ensures Xtime(b) == GfAdd(b << 1, if b & 0x80 == 0 then 0 else 0x1b)
    ensures (b << 1) & 1 == 0 && (b << 1) >> 1 == b & 0x7f
    ensures b & 0x80 == 0 || b & 0x80 == 0x80
  {}

  lemma ProductXtimeRight(a: Byte, b: Byte)
    ensures Product(a, Xtime(b)) == Xtime(Product(a, b))
  {
    hide *;
    Halves(b);
    ProductAdds(a, b << 1, if b & 0x80 == 0 then 0 else 0x1b);
    ProductAdds(Xtime(a), b & 0x7f, b & 0x80);
    EvenStep(a, b << 1);
    Modulus(a);
    ProductStep(a, 0); ProductStep(Xtime(a), 0);
    ProductXtimeLeft(a, b);
  }

  lemma TripleAdds(a: Byte)
    ensures Triple(a) == GfAdd(Xtime(a), a)
  {}

  lemma ProductTriple(a: Byte, b: Byte)
    ensures Product(a, Triple(b)) == Triple(Product(a, b))
  {
    hide *;
    TripleAdds(b); TripleAdds(Product(a, b));
    ProductAdds(a, Xtime(b), b);
    ProductXtimeRight(a, b);
  }

  // ---------------------------------------------------------------------
  // 3 generates the non-zero bytes
  // ---------------------------------------------------------------------

  lemma {:induction false} ProductOfPowers(m: nat, n: nat)
    ensures Product(Power3(m), Power3(n)) == Power3(m + n)
  {
    hide Product, Triple;
    if n == 0 {
      ProductOne(Power3(m));
    } else {
      ProductOfPowers(m, n - 1);
      ProductTriple(Power3(m), Power3(n - 1));
    }
  }

  lemma TripleInjective(a: Byte, b: Byte)
    ensures Triple(a) == Triple(b) ==> a == b
    ensures Triple(0) == 0
  {}

  lemma {:induction false} PowerNonzero(n: nat)
    ensures Power3(n) != 0
  {
    hide Triple;
    if n != 0 {
      PowerNonzero(n - 1);
      TripleInjective(Power3(n - 1), 0);
    }
  }

  lemma {:induction false} PowerCancel(m: nat, d: nat)
    requires Power3(m + d) == Power3(m)
    ensures Power3(d) == 1
  {
    hide Triple;
    if m != 0 {
      TripleInjective(Power3(m - 1 + d), Power3(m - 1));
      PowerCancel(m - 1, d);
    }
  }

  lemma {:induction false} PowerOfCycle(d: nat, t: nat)
    requires Power3(d) == 1
    ensures Power3(d * t) == 1
  {
    hide Product, Triple;
    if t != 0 {
      PowerOfCycle(d, t - 1);
      ProductOfPowers(d * (t - 1), d);
      ProductOne(1);
      assert d * (t - 1) + d == d * t;
    }
  }

  lemma PowerProduct(m: nat, n: nat, x: Byte, y: Byte)
    requires Power3(m) == x && Power3(n) == y
    ensures Power3(m + n) == Product(x, y)
  {
    ProductOfPowers(m, n);
  }

  lemma FirstPowers()
    ensures Power3(6) == 0x55 && Power3(10) == 0x72 && Power3(15) == 0x35
  {
    assert Power3(5) == 0x33;
    assert Power3(10) == 0x72;
  }

  lemma Doublings()
    ensures Power3(30) == 0x66 && Power3(60) == 0xd3 && Power3(120) == 0x2f && Power3(240) == 0x39
  {
    FirstPowers();
    hide Power3;
    PowerProduct(15, 15, 0x35, 0x35);
    PowerProduct(30, 30, 0x66, 0x66);
    PowerProduct(60, 60, 0xd3, 0xd3);
    PowerProduct(120, 120, 0x2f, 0x2f);
  }

  // The generator's order divides 255 but none of 255/17, 255/5 and 255/3.
  lemma Landmarks()
    ensures Power3(255) == 1
    ensures Power3(15) != 1 && Power3(51) != 1 && Power3(85) != 1
  {
    FirstPowers();
    Doublings();
    hide Power3;
    PowerProduct(240, 15, 0x39, 0x35);
    PowerProduct(30, 15, 0x66, 0x35);
    PowerProduct(45, 6, 0xab, 0x55);
    PowerProduct(60, 15, 0xd3, 0x35);
    PowerProduct(75, 10, 0x08, 0x72);
  }

  lemma PowerMod(n: nat)
    ensures Power3(n) == Power3(n % 255)
  {
    hide *;
    Landmarks();
    PowerOfCycle(255, n / 255);
    ProductOfPowers(n % 255, 255 * (n / 255));
    ProductOne(Power3(n % 255));
  }

  // If d*t leaves remainder 1 modulo p, and d is a cycle, then so is 255/p.
  lemma Multiplier(d: nat, t: nat, p: nat, c: nat, q: nat)
    requires d * t == p * c + 1 && p * q == 255
    requires Power3(d) == 1
    ensures Power3(q) == 1
  {
    hide *;
    calc {
      d * (t * q);
      (d * t) * q;
      (p * c + 1) * q;
      (p * c) * q + q;
      (p * q) * c + q;
    }
    Landmarks();
    PowerOfCycle(d, t * q);
    PowerOfCycle(255, c);
    ProductOfPowers(255 * c, q);
    ProductOfPowers(0, q);
    PowerZero();
  }

  lemma PowerZero()
    ensures Power3(0) == 1
  {}

  lemma InverseOf(r: nat, p: nat) returns (t: nat, c: nat)
    requires p in {3, 5, 17} && 0 < r < p
    ensures r * t == p * c + 1
  {
    if p == 3 {
      t, c := r, r - 1;
    } else if p == 5 {
      t, c := [0, 1, 3, 2, 4][r], [0, 0, 1, 1, 3][r];
    } else {
      t := [0, 1, 9, 6, 13, 7, 3, 5, 15, 2, 12, 14, 10, 4, 11, 8, 16][r];
      c := [0, 0, 1, 1, 3, 2, 1, 2, 7, 1, 7, 9, 7, 3, 9, 7, 15][r];
    }
  }

  lemma PrimeToCycle(d: nat, p: nat, q: nat)
    requires p in {3, 5, 17} && p * q == 255 && d % p != 0
    requires Power3(d) == 1
    ensures Power3(q) == 1
  {
    hide *;
    var e, r := Divide(d, p);
    var t, c := InverseOf(r, p);
    Regroup(p, e, r, t, c);
    Multiplier(d, t, p, e * t + c, q);
  }

  lemma Divide(d: nat, p: nat) returns (e: nat, r: nat)
    requires p in {3, 5, 17} && d % p != 0
    ensures d == p * e + r && 0 < r < p
  {
    e, r := d / p, d % p;
  }

  lemma Regroup(p: nat, e: nat, r: nat, t: nat, c: nat)
    requires r * t == p * c + 1
    ensures (p * e + r) * t == p * (e * t + c) + 1
  {
    assert (p * e + r) * t == (p * e) * t + r * t;
    assert (p * e) * t == p * (e * t);
  }

  lemma NoShorterCycle(d: nat)
    requires 0 < d < 255
    ensures Power3(d) != 1
  {
    hide *;
    Landmarks();
    if Power3(d) == 1 {
      if d % 17 != 0 {
        PrimeToCycle(d, 17, 15);
      } else if d % 5 != 0 {
        PrimeToCycle(d, 5, 51);
      } else {
        PrimeToCycle(d, 3, 85);
      }
    }
  }

  lemma {:induction false} PowersDistinct(m: nat, n: nat)
    requires m < 255 && n < 255 && Power3(m) == Power3(n)
    ensures m == n
    decreases m
  {
    hide Power3;
    if m < n {
      NoShorterCycle(n - m);
      PowerCancel(m, n - m);
    } else if n < m {
      PowersDistinct(n, m);
    }
  }

  lemma NumFacts(a: Byte, b: Byte)
    ensures Num(a) == Num(b) ==> a == b
    ensures Num(a) == 0 <==> a == 0
  {}

  // The values the table builder has met before round n.
  function Seen(n: nat): set<int> {
    if n == 0 then {} else Seen(n - 1) + {Num(Power3(n - 1))}
  }

  lemma {:induction false} SeenRound(n: nat, x: int) returns (j: nat)
    requires x in Seen(n)
    ensures j < n && Num(Power3(j)) == x
  {
    hide Power3, Num;
    if x == Num(Power3(n - 1)) {
      j := n - 1;
    } else {
      j := SeenRound(n - 1, x);
    }
  }

  lemma {:induction false} SeenSize(n: nat)
    requires n <= 255
    ensures |Seen(n)| == n
    ensures forall x :: x in Seen(n) ==> 1 <= x <= 255
  {
    hide Power3, Num;
    if n != 0 {
      SeenSize(n - 1);
      var x := Num(Power3(n - 1));
      PowerNonzero(n - 1);
      NumFacts(Power3(n - 1), 0);
      if x in Seen(n - 1) {
        var j := SeenRound(n - 1, x);
        NumFacts(Power3(n - 1), Power3(j));
        PowersDistinct(j, n - 1);
      }
    }
  }

  function UpTo(n: nat): set<int> {
    if n == 0 then {} else UpTo(n - 1) + {n}
  }

  lemma {:induction false} UpToSize(n: nat)
    ensures |UpTo(n)| == n
    ensures forall x :: x in UpTo(n) <==> 1 <= x <= n
  {
    if n != 0 { UpToSize(n - 1); }
  }

  // Every non-zero byte is met in one of the 255 rounds.
  lemma PowersCover(a: Byte) returns (j: nat)
    requires a != 0
    ensures j < 255 && Power3(j) == a
  {
    hide Power3, Seen, UpTo, Num;
    SeenSize(255); UpToSize(255);
    NumFacts(a, 0);
    if Num(a) !in Seen(255) {
      forall x | x in Seen(255) ensures x in UpTo(255) - {Num(a)} {}
      SubsetSize(Seen(255), UpTo(255) - {Num(a)});
    }
    j := SeenRound(255, Num(a));
    NumFacts(a, Power3(j));
  }

  lemma {:induction false} SearchFinds(n: nat, j: nat)
    requires n <= j < 255
    ensures SearchLog(Num(Power3(j)), n) == j
    decreases j - n
  {
    hide Power3, Num;
    if Num(Power3(n)) == Num(Power3(j)) {
      NumFacts(Power3(n), Power3(j));
      PowersDistinct(j, n);
    } else {
      SearchFinds(n + 1, j);
    }
  }

  lemma LogInverts(a: Byte)
    ensures a != 0 ==> Power3(LogOf(a)) == a
    ensures LogOf(0) == 0
  {
    hide Power3, Num;
    if a != 0 {
      var j := PowersCover(a);
      SearchFinds(0, j);
    }
    PowerNonzero(LogOf(0));
    NumFacts(Power3(LogOf(0)), 0);
  }

  lemma ExpIsPower(i: nat)
    requires i < 512
    ensures ExpTable()[i] == Power3(i)
  {
    hide Power3;
    PowerMod(i);
  }

  // ---------------------------------------------------------------------
  // The table builder
  // ---------------------------------------------------------------------

  method InitTables() returns (exp: array<Byte>, log: array<nat>)
    ensures exp[..] == ExpTable()
    ensures log[..] == LogTable()
  {
    hide *;
    exp := new Byte[512](_ => 0);
    log := new nat[256](_ => 0);
    var x: Byte := 1;
    PowerStep(0);
    RoundStep(0);
    for i := 0 to 255
      invariant x == Power3(i)
      invariant forall j :: 0 <= j < i ==> exp[j] == ExpAt(j)
      invariant forall b :: 0 <= b < 256 ==> log[b] == Round(b, i)
    {
      ExpWraps(i);
      exp[i] := x;
      log[Num(x)] := i;
      RoundStep(i);
      x := Triple(x);
      PowerStep(i);
    }
    for i := 255 to 512
      invariant forall j :: 0 <= j < i ==> exp[j] == ExpAt(j)
      invariant forall b :: 0 <= b < 256 ==> log[b] == Round(b, 255)
    {
      ExpWraps(i);
      exp[i] := exp[i - 255];
    }
    TableEntries();
    forall b | 0 <= b < 256 ensures log[b] == LogTable()[b] {
      RoundIsLog(b);
    }
  }

  lemma ExpWraps(i: nat)
    ensures i < 255 ==> ExpAt(i) == Power3(i)
    ensures i >= 255 ==> ExpAt(i) == ExpAt(i - 255)
  {
    hide Power3;
  }

  lemma TableEntries()
    ensures |ExpTable()| == 512 && forall i :: 0 <= i < 512 ==> ExpTable()[i] == ExpAt(i)
    ensures |LogTable()| == 256 && forall b :: 0 <= b < 256 ==> LogTable()[b] == LogAt(b)
  {
    hide ExpAt, LogAt;
  }

  lemma PowerStep(i: nat)
    ensures Power3(0) == 1
    ensures Power3(i + 1) == Triple(Power3(i))
  {}

  // What the logarithm table holds at index b before round n: its last round.
  ghost function Round(b: int, n: nat): nat {
    if n == 0 then 0 else if Num(Power3(n - 1)) == b then n - 1 else Round(b, n - 1)
  }

  lemma RoundStep(n: nat)
    ensures forall b :: Round(b, 0) == 0
    ensures forall b :: Num(Power3(n)) != b ==> Round(b, n + 1) == Round(b, n)
    ensures Round(Num(Power3(n)), n + 1) == n
  {
    hide Power3, Num;
  }

  lemma RoundIsLog(b: int)
    requires 0 <= b < 256
    ensures Round(b, 255) == LogAt(b)
  {
    hide Power3, Num, ByteAt;
    var a := ByteAt(b);
    ByteAtRoundTrip(b);
    LogInverts(a);
    if a == 0 {
      RoundMisses(255);
      NumFacts(a, 0);
    } else {
      RoundHits(LogOf(a), 255);
    }
  }

  lemma {:induction false} RoundMisses(n: nat)
    ensures Round(0, n) == 0
  {
    hide Power3, Num;
    if n != 0 {
      RoundMisses(n - 1);
      PowerNonzero(n - 1);
      NumFacts(Power3(n - 1), 0);
    }
  }

  lemma {:induction false} RoundHits(j: nat, n: nat)
    requires j < n <= 255
    ensures Round(Num(Power3(j)), n) == j
  {
    hide Power3, Num;
    if Num(Power3(n - 1)) == Num(Power3(j)) {
      NumFacts(Power3(n - 1), Power3(j));
      PowersDistinct(j, n - 1);
    } else {
      RoundHits(j, n - 1);
    }
  }

  // ---------------------------------------------------------------------
  // Field laws
  // ---------------------------------------------------------------------

  lemma GfMulIsProduct(a: Byte, b: Byte)
    ensures GfMul(a, b) == Product(a, b)
  {
    hide Power3, Product, ExpTable, LogOf;
    if b == 0 {
      ProductStep(a, 0);
    } else if a == 0 {
      ProductZero(b);
    } else {
      LogInverts(a); LogInverts(b);
      ProductOfPowers(LogOf(a), LogOf(b));
      ExpIsPower(LogOf(a) + LogOf(b));
    }
  }

  lemma ProductZero(b: Byte)
    ensures Product(0, b) == 0
  {
    hide *;
    ProductXtimeLeft(0, b);
    XtimeZero();
    XtimeFixesZeroOnly(Product(0, b));
  }

  lemma XtimeFixesZeroOnly(a: Byte)
    requires Xtime(a) == a
    ensures a == 0
  {}

  lemma MulCommutes(a: Byte, b: Byte)
    ensures GfMul(a, b) == GfMul(b, a)
  {
    hide ExpTable, LogOf;
  }

  lemma MulAssociates(a: Byte, b: Byte, c: Byte)
    ensures GfMul(GfMul(a, b), c) == GfMul(a, GfMul(b, c))
  {
    hide *;
    GfMulIsProduct(a, b); GfMulIsProduct(Product(a, b), c);
    GfMulIsProduct(b, c); GfMulIsProduct(a, Product(b, c));
    ProductAssociates(a, b, c);
  }

  lemma {:induction false} ProductAssociates(a: Byte, b: Byte, c: Byte)
    ensures Product(Product(a, b), c) == Product(a, Product(b, c))
  {
    hide *;
    if a == 0 {
      ProductZero(b); ProductZero(c); ProductZero(Product(b, c));
    } else if b == 0 {
      ProductStep(a, 0); ProductZero(c);
    } else if c == 0 {
      ProductStep(Product(a, b), 0); ProductStep(b, 0); ProductStep(a, 0);
    } else {
      var l := PowersCover(a);
      var m := PowersCover(b);
      var n := PowersCover(c);
      ProductOfPowers(l, m); ProductOfPowers(l + m, n);
      ProductOfPowers(m, n); ProductOfPowers(l, m + n);
    }
  }

  lemma MulDistributes(a: Byte, b: Byte, c: Byte)
    ensures GfMul(a, GfAdd(b, c)) == GfAdd(GfMul(a, b), GfMul(a, c))
  {
    hide *;
    GfMulIsProduct(a, GfAdd(b, c)); GfMulIsProduct(a, b); GfMulIsProduct(a, c);
    ProductAdds(a, b, c);
  }

  lemma MulOne(a: Byte)
    ensures GfMul(a, 1) == a && GfMul(a, 0) == 0
  {
    hide *;
    GfMulIsProduct(a, 1); GfMulIsProduct(a, 0);
    ProductOne(a); ProductStep(a, 0);
  }

  // Division undoes multiplication, so there are no divisors of zero.
  lemma DivInverts(a: Byte, b: Byte)
    requires b != 0
    ensures GfMul(Quotient(a, b), b) == a
  {
    hide Power3, ExpTable, LogOf;
    if a != 0 {
      LogInverts(a); LogInverts(b);
      var d := (LogOf(a) - LogOf(b) + 255) % 255;
      ExpIsPower(d);
      GfMulIsProduct(Quotient(a, b), b);
      ProductOfPowers(d, LogOf(b));
      PowerMod(d + LogOf(b));
      assert (d + LogOf(b)) % 255 == LogOf(a);
    }
  }

  lemma MulNonzero(a: Byte, b: Byte)
    requires a != 0 && b != 0
    ensures GfMul(a, b) != 0
  {
    hide Power3, ExpTable, LogOf;
    ExpIsPower(LogOf(a) + LogOf(b));
    PowerNonzero(LogOf(a) + LogOf(b));
  }

  // gfPow is repeated multiplication.
  lemma PowStep(a: Byte, e: nat)
    ensures GfPow(a, 0) == 1
    ensures GfPow(a, e + 1) == GfMul(GfPow(a, e), a)
  {
    hide Power3, ExpTable, LogOf;
    if a != 0 {
      var l := LogOf(a);
      LogInverts(a);
      ExpIsPower(l * (e + 1) % 255); ExpIsPower(l * e % 255);
      PowerMod(l * (e + 1)); PowerMod(l * e);
      assert l * (e + 1) == l * e + l;
      ProductOfPowers(l * e, l);
      GfMulIsProduct(GfPow(a, e), a);
      PowerZero();
    }
  }
}
