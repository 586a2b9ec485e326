/** GF(2^8): the field that internal/reedsolomon/gf.go builds from its exp/log tables.

    A byte is a polynomial over GF(2); addition is XOR and multiplication is polynomial
    multiplication modulo x^8 + x^4 + x^3 + x^2 + 1 (0x11d). The code never multiplies
    polynomials: it looks products up through logarithms to the base alpha = 2. The lemmas
    below show that the table look-ups are that field. */
module GF {

  type byte = bv8

  /** One step of the table loop: multiply by alpha, reducing by the low byte of 0x11d. */
  function TimesAlpha(x: byte): (r: byte) {
    if x & 0x80 != 0 then (x << 1) ^ 0x1d else x << 1
  }

  /** alpha^n * b. */
  function AlphaTimes(n: nat, b: byte): (r: byte) {
    if n == 0 then b else TimesAlpha(AlphaTimes(n - 1, b))
  }

  /** gfExp without its 512-entry bound. */
  function Exp(i: nat): (r: byte) { AlphaTimes(i, 1) }

  // ---- alpha^n is an injective XOR-linear map ----

  lemma {:induction false} AlphaTimesXor(n: nat, a: byte, b: byte)
    ensures AlphaTimes(n, a ^ b) == AlphaTimes(n, a) ^ AlphaTimes(n, b)
  {
    if n > 0 {
      AlphaTimesXor(n - 1, a, b);
    }
  }

  lemma {:induction false} AlphaTimesAdd(m: nat, n: nat, b: byte)
    ensures AlphaTimes(m + n, b) == AlphaTimes(m, AlphaTimes(n, b))
  {
    if m > 0 {
      AlphaTimesAdd(m - 1, n, b);
    }
  }

  lemma {:induction false} AlphaTimesInjective(n: nat, a: byte, b: byte)
    requires AlphaTimes(n, a) == AlphaTimes(n, b)
    ensures a == b
  {
    if n > 0 {
      AlphaTimesInjective(n - 1, a, b);
    }
  }

  lemma AlphaTimesZero(n: nat)
    ensures AlphaTimes(n, 0) == 0
  {
  }

  lemma ExpNonzero(i: nat)
    ensures Exp(i) != 0
  {
    if Exp(i) == 0 {
      AlphaTimesZero(i);
      AlphaTimesInjective(i, 1, 0);
    }
  }

  // ---- alpha is primitive ----

  /** Squaring, as the linear map that sends x^k to x^2k. */
  function Square(x: byte): (r: byte) {
    (if x & 0x01 != 0 then 0x01 else 0) ^ (if x & 0x02 != 0 then 0x04 else 0) ^
    (if x & 0x04 != 0 then 0x10 else 0) ^ (if x & 0x08 != 0 then 0x40 else 0) ^
    (if x & 0x10 != 0 then 0x1d else 0) ^ (if x & 0x20 != 0 then 0x74 else 0) ^
    (if x & 0x40 != 0 then 0xcd else 0) ^ (if x & 0x80 != 0 then 0x13 else 0)
  }

  lemma SquareStep(x: byte)
    ensures Square(TimesAlpha(x)) == TimesAlpha(TimesAlpha(Square(x)))
  {
  }

  lemma SquareOne(x: byte)
    requires Square(x) == 1
    ensures x == 1
  {
  }

  lemma {:induction false} ExpDouble(n: nat)
    ensures Exp(2 * n) == Square(Exp(n)) && Exp(2 * n + 1) == TimesAlpha(Exp(2 * n))
  {
    if n > 0 {
      ExpDouble(n - 1);
      SquareStep(Exp(n - 1));
    }
  }

  lemma ExpSmallConstants()
    ensures Exp(15) == 0x26 && Exp(45) == 0xc1 && Exp(255) == 1
  {
    assert Exp(3) == 0x08;
    assert Exp(5) == 0x20;
    ExpDouble(3); ExpDouble(7); ExpDouble(15);
    ExpDouble(5); ExpDouble(11); ExpDouble(22);
    ExpDouble(31); ExpDouble(63); ExpDouble(127);
  }

  lemma ExpLargeConstants()
    ensures Exp(51) == 0x0a && Exp(85) == 0xd6
  {
    assert Exp(3) == 0x08;
    assert Exp(5) == 0x20;
    ExpDouble(3); ExpDouble(6); ExpDouble(12); ExpDouble(25);
    ExpDouble(5); ExpDouble(10); ExpDouble(21); ExpDouble(42);
  }

  lemma ExpPeriod(i: nat, n: nat)
    ensures Exp(i + 255 * n) == Exp(i)
    decreases n
  {
    if n > 0 {
      ExpPeriod(i, n - 1);
      ExpSmallConstants();
      AlphaTimesAdd(i + 255 * (n - 1), 255, 1);
    }
  }

  lemma {:induction false} ExpMultiple(d: nat, n: nat)
    requires Exp(d) == 1
    ensures Exp(d * n) == 1
  {
    if n > 0 {
      ExpMultiple(d, n - 1);
      AlphaTimesAdd(d * (n - 1), d, 1);
      assert d * (n - 1) + d == d * n;
    }
  }

  /** Doubling the exponent modulo 255 does not lead to 1. */
  lemma NotOneDouble(n: nat, m: nat)
    requires Exp(n) != 1 && (m == 2 * n || m + 255 == 2 * n)
    ensures Exp(m) != 1
  {
    ExpDouble(n);
    if Exp(2 * n) == 1 {
      SquareOne(Exp(n));
    }
    ExpPeriod(m, 1);
  }

  /** No proper multiple of 255/3, 255/5 or 255/17 is an exponent of 1. */
  lemma NotOneCofactors()
    ensures Exp(85) != 1 && Exp(170) != 1
    ensures Exp(51) != 1 && Exp(102) != 1 && Exp(204) != 1 && Exp(153) != 1
    ensures Exp(15) != 1 && Exp(30) != 1 && Exp(60) != 1 && Exp(120) != 1
    ensures Exp(240) != 1 && Exp(225) != 1 && Exp(195) != 1 && Exp(135) != 1
    ensures Exp(45) != 1 && Exp(90) != 1 && Exp(180) != 1 && Exp(105) != 1
    ensures Exp(210) != 1 && Exp(165) != 1 && Exp(75) != 1 && Exp(150) != 1
  {
    ExpSmallConstants();
    ExpLargeConstants();
    NotOneDouble(85, 170);
    NotOneDouble(51, 102); NotOneDouble(102, 204); NotOneDouble(204, 153);
    NotOneDouble(15, 30); NotOneDouble(30, 60); NotOneDouble(60, 120); NotOneDouble(120, 240);
    NotOneDouble(240, 225); NotOneDouble(225, 195); NotOneDouble(195, 135);
    NotOneDouble(45, 90); NotOneDouble(90, 180); NotOneDouble(180, 105); NotOneDouble(105, 210);
    NotOneDouble(210, 165); NotOneDouble(165, 75); NotOneDouble(75, 150);
  }

  /** If alpha^d were 1 then so would be alpha^(q * (d mod p)), where p * q == 255. */
  lemma OneReduced(d: nat, p: nat, q: nat)
    requires Exp(d) == 1 && 0 < p && p * q == 255
    ensures Exp(q * (d % p)) == 1
  {
    ExpMultiple(d, q);
    var e, r := d / p, d % p;
    calc {
      d * q;
      { assert d == p * e + r; }
      (p * e + r) * q;
      q * r + (p * q) * e;
      q * r + 255 * e;
    }
    ExpPeriod(q * r, e);
  }

  lemma OneDivisibleBy15(d: nat)
    requires Exp(d) == 1
    ensures d % 3 == 0 && d % 5 == 0
  {
    NotOneCofactors();
    OneReduced(d, 3, 85);
    OneReduced(d, 5, 51);
    var r, s := d % 3, d % 5;
    assert r == 0 || r == 1 || r == 2;
    assert s == 0 || s == 1 || s == 2 || s == 3 || s == 4;
  }

  lemma OneDivisibleBy17(d: nat)
    requires Exp(d) == 1
    ensures d % 17 == 0
  {
    NotOneCofactors();
    OneReduced(d, 17, 15);
    var r := d % 17;
    assert r == 0 || r == 1 || r == 2 || r == 3 || r == 4 || r == 5 || r == 6 || r == 7 || r == 8 ||
           r == 9 || r == 10 || r == 11 || r == 12 || r == 13 || r == 14 || r == 15 || r == 16;
  }

  /** alpha has order exactly 255. */
  lemma Primitive(d: nat)
    requires 0 < d < 255
    ensures Exp(d) != 1
  {
    if Exp(d) == 1 {
      OneDivisibleBy15(d);
      OneDivisibleBy17(d);
    }
  }

  lemma ExpInjective(i: nat, j: nat)
    requires i < 255 && j < 255 && Exp(i) == Exp(j)
    ensures i == j
  {
    if i < j {
      AlphaTimesAdd(i, j - i, 1);
      AlphaTimesInjective(i, 1, Exp(j - i));
      Primitive(j - i);
    } else if j < i {
      ExpInjective(j, i);
    }
  }

  // ---- logarithms: exp is onto the nonzero bytes, by counting ----

  lemma ByteIntInjective(a: byte, b: byte)
    requires a as int == b as int
    ensures a == b
  {
  }

  lemma ByteIntPositive(a: byte)
    requires a != 0
    ensures 1 <= a as int <= 255
  {
  }

  function ExpInt(i: nat): (x: int)
    ensures 1 <= x <= 255
  {
    ExpNonzero(i);
    ByteIntPositive(Exp(i));
    Exp(i) as int
  }

  lemma ExpIntInjective(i: nat, j: nat)
    requires i < 255 && j < 255 && ExpInt(i) == ExpInt(j)
    ensures i == j
  {
    ByteIntInjective(Exp(i), Exp(j));
    ExpInjective(i, j);
  }

  ghost function ExpImage(n: nat): (s: set<int>)
    requires n <= 255
    ensures |s| == n
    ensures forall x <- s :: exists i: nat :: i < n && ExpInt(i) == x
    ensures forall x <- s :: 1 <= x <= 255
  {
    if n == 0 then {} else
      var s := ExpImage(n - 1);
      assert ExpInt(n - 1) !in s by {
        if ExpInt(n - 1) in s {
          var i: nat :| i < n - 1 && ExpInt(i) == ExpInt(n - 1);
          ExpIntInjective(i, n - 1);
        }
      }
      s + {ExpInt(n - 1)}
  }

  ghost function Range(n: nat): (s: set<int>)
    ensures |s| == n && forall x :: x in s <==> 1 <= x <= n
  {
    if n == 0 then {} else Range(n - 1) + {n}
  }

  lemma ExpIntOnto(n: nat, x: int)
    requires n == 255 && 1 <= x <= n
    ensures exists i: nat :: i < n && ExpInt(i) == x
  {
    var s, r := ExpImage(n), Range(n);
    assert s <= r;
    assert |r - s| == |r| - |s|;
    assert x in s;
  }

  lemma LogExists(a: byte)
    requires a != 0
    ensures exists i: nat :: i < 255 && Exp(i) == a
  {
    ByteIntPositive(a);
    ExpIntOnto(255, a as int);
    var i: nat :| i < 255 && ExpInt(i) == a as int;
    ByteIntInjective(Exp(i), a);
  }

  /** gfLog. */
  function Log(a: byte): (i: nat)
    requires a != 0
    ensures i < 255 && Exp(i) == a
  {
    LogExists(a);
    assert forall i, j | 0 <= i < 255 && 0 <= j < 255 && Exp(i) == a && Exp(j) == a :: i == j by {
      forall i, j | 0 <= i < 255 && 0 <= j < 255 && Exp(i) == a && Exp(j) == a ensures i == j {
        ExpInjective(i, j);
      }
    }
    var i: nat :| i < 255 && Exp(i) == a;
    i
  }

  // ---- the arithmetic of gf.go ----

  function Add(a: byte, b: byte): (r: byte) { a ^ b }

  function Mul(a: byte, b: byte): (r: byte) {
    if a == 0 || b == 0 then 0 else Exp(Log(a) + Log(b))
  }

  function Div(a: byte, b: byte): (r: byte)
    requires b != 0
  {
    if a == 0 then 0 else Exp(Log(a) - Log(b) + 255)
  }

  function Inv(a: byte): (r: byte)
    requires a != 0
  {
    Div(1, a)
  }

  function Pow(a: byte, n: nat): (r: byte) {
    if a == 0 then (if n == 0 then 1 else 0) else Exp((Log(a) * n) % 255)
  }

  lemma LogExp(i: nat)
    ensures Exp(i) != 0 && Log(Exp(i)) == i % 255
  {
    ExpNonzero(i);
    ExpPeriod(i % 255, i / 255);
    ExpInjective(Log(Exp(i)), i % 255);
  }

  lemma ExpLogSum(i: nat, j: nat)
    requires Exp(i) != 0
    ensures Exp(Log(Exp(i)) + j) == Exp(i + j)
  {
    LogExp(i);
    var q, r := i / 255, i % 255;
    ExpPeriod(r + j, q);
    assert r + j + 255 * q == i + j;
  }

  /** Multiplying by alpha^i through the tables is the linear map alpha^i. */
  lemma MulExp(i: nat, b: byte)
    ensures Mul(Exp(i), b) == AlphaTimes(i, b)
  {
    ExpNonzero(i);
    AlphaTimesZero(i);
    if b != 0 {
      MulExpExp(i, Log(b));
    }
  }

  lemma MulExpExp(i: nat, j: nat)
    ensures Mul(Exp(i), Exp(j)) == AlphaTimes(i, Exp(j)) == Exp(i + j)
  {
    ExpNonzero(i);
    ExpNonzero(j);
    ExpLogSum(i, Log(Exp(j)));
    ExpLogSum(j, i);
    AlphaTimesAdd(i, j, 1);
  }

  lemma MulCommutes(a: byte, b: byte)
    ensures Mul(a, b) == Mul(b, a)
  {
  }

  lemma AddAssociates(a: byte, b: byte, c: byte)
    ensures Add(Add(a, b), c) == Add(a, Add(b, c))
  {
  }

  lemma AddSwap(a: byte, b: byte, c: byte, d: byte)
    ensures Add(Add(a, b), Add(c, d)) == Add(Add(a, c), Add(b, d))
  {
    calc {
      Add(Add(a, b), Add(c, d));
      { AddAssociates(a, b, Add(c, d)); }
      Add(a, Add(b, Add(c, d)));
      { AddAssociates(b, c, d); }
      Add(a, Add(Add(b, c), d));
      { assert Add(b, c) == Add(c, b); }
      Add(a, Add(Add(c, b), d));
      { AddAssociates(c, b, d); }
      Add(a, Add(c, Add(b, d)));
      { AddAssociates(a, c, Add(b, d)); }
      Add(Add(a, c), Add(b, d));
    }
  }

  lemma AddCancels(a: byte, b: byte)
    ensures Add(a, b) == 0 <==> a == b
  {
  }

  lemma MulDistributes(a: byte, b: byte, c: byte)
    ensures Mul(a, Add(b, c)) == Add(Mul(a, b), Mul(a, c))
  {
    if a != 0 {
      var i := Log(a);
      MulExp(i, b);
      MulExp(i, c);
      MulExp(i, Add(b, c));
      AlphaTimesXor(i, b, c);
      assert Add(b, c) == b ^ c;
    }
  }

  lemma MulDistributesRight(a: byte, b: byte, c: byte)
    ensures Mul(Add(b, c), a) == Add(Mul(b, a), Mul(c, a))
  {
    MulCommutes(a, b);
    MulCommutes(a, c);
    MulCommutes(a, Add(b, c));
    MulDistributes(a, b, c);
  }

  lemma MulAssociates(a: byte, b: byte, c: byte)
    ensures Mul(Mul(a, b), c) == Mul(a, Mul(b, c))
  {
    if a != 0 && b != 0 {
      var i, j := Log(a), Log(b);
      MulExp(i + j, c);
      MulExp(i, Mul(b, c));
      MulExp(j, c);
      AlphaTimesAdd(i, j, c);
    }
  }

  lemma MulOne(a: byte)
    ensures Mul(1, a) == a && Mul(a, 1) == a
  {
    MulExp(0, a);
    MulCommutes(1, a);
  }

  lemma MulNonzero(a: byte, b: byte)
    ensures Mul(a, b) == 0 <==> a == 0 || b == 0
  {
    if a != 0 && b != 0 {
      ExpNonzero(Log(a) + Log(b));
    }
  }

  /** Division undoes multiplication, so every nonzero byte has an inverse. */
  lemma DivCancels(a: byte, b: byte)
    requires b != 0
    ensures Mul(Div(a, b), b) == a
  {
    if a != 0 {
      var j := Log(b);
      var d := Log(a) - j + 255;
      MulExp(d, b);
      AlphaTimesAdd(d, j, 1);
      ExpPeriod(Log(a), 1);
    }
  }

  lemma InvCancels(a: byte)
    requires a != 0
    ensures Inv(a) != 0 && Mul(Inv(a), a) == 1 && Mul(a, Inv(a)) == 1
  {
    DivCancels(1, a);
    MulCommutes(Inv(a), a);
    MulNonzero(Inv(a), a);
  }

  /** gfPow is repeated multiplication, including 0^0 == 1. */
  lemma PowStep(a: byte, n: nat)
    ensures Pow(a, 0) == 1 && Pow(a, n + 1) == Mul(a, Pow(a, n))
  {
    if a != 0 {
      var k := Log(a);
      NextMultiple(k, n);
      ExpOfSum(k, (k * n) % 255);
    }
  }

  lemma NextMultiple(k: nat, n: nat)
    ensures (k * (n + 1)) % 255 == (k + (k * n) % 255) % 255
  {
    assert k * (n + 1) == k * n + k;
  }

  lemma ExpOfSum(k: nat, r: nat)
    ensures Exp((k + r) % 255) == Mul(Exp(k), Exp(r))
  {
    MulExp(k, Exp(r));
    AlphaTimesAdd(k, r, 1);
    ExpPeriod((k + r) % 255, (k + r) / 255);
  }

  // ---- the reference: shift-and-add multiplication modulo 0x11d ----

  /** Polynomial multiplication, one bit of b at a time, reducing after each shift. */
  function PolyTimes(a: byte, b: byte, bits: nat): (r: byte)
    decreases bits
  {
    if bits == 0 then 0
    else Add(if b & 1 != 0 then a else 0, PolyTimes(TimesAlpha(a), b >> 1, bits - 1))
  }

  function BitBound(bits: nat): (r: byte)
    requires bits <= 8
  {
    if bits == 8 then 0xff else ((1 as byte) << bits as bv4) - 1
  }

  lemma SplitLowBit(b: byte)
    ensures b == Add(b & 1, TimesAlpha(b >> 1))
    ensures b & 1 == 0 || b & 1 == 1
  {
  }

  /** The log/exp look-up computes the polynomial product. */
  lemma {:induction false} MulIsPolyTimes(a: byte, b: byte, bits: nat)
    requires bits <= 8 && b <= BitBound(bits)
    ensures Mul(a, b) == PolyTimes(a, b, bits)
    decreases bits
  {
    if bits > 0 {
      MulLowBit(a, b);
      BitBoundStep(b, bits);
      MulIsPolyTimes(TimesAlpha(a), b >> 1, bits - 1);
    }
  }

  lemma MulShift(a: byte, c: byte)
    ensures Mul(a, TimesAlpha(c)) == Mul(TimesAlpha(a), c)
  {
    MulExp(1, c);
    MulExp(1, a);
    MulAssociates(a, Exp(1), c);
    MulCommutes(a, Exp(1));
  }

  lemma MulSplit(a: byte, l: byte, t: byte)
    requires l == 0 || l == 1
    ensures Mul(a, Add(l, t)) == Add(if l == 1 then a else 0, Mul(a, t))
  {
    MulDistributes(a, l, t);
    MulOne(a);
  }

  lemma MulLowBit(a: byte, b: byte)
    ensures Mul(a, b) == Add(if b & 1 != 0 then a else 0, Mul(TimesAlpha(a), b >> 1))
  {
    var c := b >> 1;
    MulShift(a, c);
    MulSplit(a, b & 1, TimesAlpha(c));
    SplitLowBit(b);
  }

  lemma BitBoundStep(b: byte, bits: nat)
    requires 0 < bits <= 8 && b <= BitBound(bits)
    ensures b >> 1 <= BitBound(bits - 1)
  {
  }

  // ---- the tables ----

  lemma ByteSucc(b: byte)
    requires b != 255
    ensures (b + 1) as int == b as int + 1
  {
  }

  /** Conversion to a byte and back is the identity below 256. */
  lemma ByteRoundTrip(i: nat)
    requires i < 256
    ensures (i as byte) as int == i
  {
    var b: byte := 0;
    for k := 0 to i
      invariant b as int == k
    {
      ByteSucc(b);
      b := b + 1;
    }
    assert (b as int) as bv8 == b;
  }

  /** What package initialisation must establish: 512 powers of alpha, and their logarithms. */
  ghost predicate TablesFilled(exp: array<byte>, log: array<byte>)
    reads exp, log
  {
    && exp.Length == 512 && log.Length == 256
    && (forall i :: 0 <= i < 512 ==> exp[i] == Exp(i))
    && LogFilled(log, 255)
  }

  ghost predicate LogFilled(log: array<byte>, n: nat)
    requires log.Length == 256
    reads log
  {
    forall j: nat {:trigger ExpInt(j)} :: j < n ==> log[ExpInt(j)] as int == j
  }

  method BuildTables() returns (exp: array<byte>, log: array<byte>)
    ensures fresh(exp) && fresh(log) && TablesFilled(exp, log)
  {
    exp, log := new byte[512], new byte[256];
    var x: byte := 1;
    for i := 0 to 255
      invariant x == Exp(i)
      invariant forall j :: 0 <= j < i ==> exp[j] == Exp(j)
      invariant LogFilled(log, i)
    {
      exp[i] := x;
      SetLog(log, i, x);
      var hi := x & 0x80;
      x := x << 1;
      if hi != 0 {
        x := x ^ 0x1d;
      }
    }
    for i := 255 to 512
      invariant forall j :: 0 <= j < i ==> exp[j] == Exp(j)
      invariant LogFilled(log, 255)
    {
      ExpPeriod(i - 255, 1);
      exp[i] := exp[i - 255];
    }
  }

  /** One log entry: the slot of alpha^i is no earlier power's slot. */
  method SetLog(log: array<byte>, i: nat, x: byte)
    requires log.Length == 256 && i < 255 && x == Exp(i) && LogFilled(log, i)
    modifies log
    ensures LogFilled(log, i + 1)
  {
    ByteRoundTrip(i);
    assert x as int == ExpInt(i);
    forall j: nat | j < i ensures ExpInt(j) != ExpInt(i) {
      if ExpInt(j) == ExpInt(i) { ExpIntInjective(j, i); }
    }
    log[x as int] := i as byte;
  }

  /** gfMul as written: two log look-ups, one exp look-up. */
  method TableMul(exp: array<byte>, log: array<byte>, a: byte, b: byte) returns (r: byte)
    requires TablesFilled(exp, log)
    ensures r == Mul(a, b)
  {
    if a == 0 || b == 0 {
      return 0;
    }
    TableLog(log, exp, a);
    TableLog(log, exp, b);
    r := exp[log[a as int] as int + log[b as int] as int];
  }

  /** gfDiv as written; the source panics on a zero divisor. */
  method TableDiv(exp: array<byte>, log: array<byte>, a: byte, b: byte) returns (r: byte)
    requires TablesFilled(exp, log) && b != 0
    ensures r == Div(a, b)
  {
    if a == 0 {
      return 0;
    }
    TableLog(log, exp, a);
    TableLog(log, exp, b);
    r := exp[log[a as int] as int - log[b as int] as int + 255];
  }

  /** gfPow as written, reduced modulo the order of alpha. */
  method TablePow(exp: array<byte>, log: array<byte>, a: byte, n: nat) returns (r: byte)
    requires TablesFilled(exp, log)
    ensures r == Pow(a, n)
  {
    if a == 0 {
      return if n == 0 then 1 else 0;
    }
    TableLog(log, exp, a);
    var k := log[a as int] as int;
    r := exp[(k * n) % 255];
  }

  /** The contents of filled tables. */
  ghost predicate AreTables(exp: seq<byte>, log: seq<byte>) {
    && |exp| == 512 && |log| == 256 && (forall i :: 0 <= i < 512 ==> exp[i] == Exp(i))
    && (forall a: byte :: a != 0 ==> log[a as int] as int == Log(a))
  }

  lemma TableContents(exp: array<byte>, log: array<byte>)
    requires TablesFilled(exp, log)
    ensures AreTables(exp[..], log[..])
  {
    forall a: byte | a != 0 ensures log[..][a as int] as int == Log(a) { TableLog(log, exp, a); }
  }

  lemma TableLog(log: array<byte>, exp: array<byte>, a: byte)
    requires TablesFilled(exp, log) && a != 0
    ensures log[a as int] as int == Log(a)
  {
    assert ExpInt(Log(a)) == a as int;
  }
}
