/** The Montgomery ladder of X25519 on limb vectors, against the same ladder on residues modulo
    2^255 - 19 (section 5 of RFC 7748). */
module X25519 {
  import opened Words
  import opened Field25519

  // ---- The ladder on residues -----------------------------------------------------------

  datatype XZ = XZ(x: nat, z: nat)
  datatype Rungs = Rungs(p: XZ, q: XZ)

  function Plus(p: XZ): nat { FAdd(p.x, p.z) }
  function Minus(p: XZ): nat { FSub(p.x, p.z) }

  function Res(a: int): (r: nat) ensures r < P { a % P }

  /** Doubling on the curve v^2 = u^3 + 486662 u^2 + u: the u-coordinate x/z of a point becomes
      (x^2 - z^2)^2 / 4 x z (x^2 + 486662 x z + z^2). */
  function Double(p: XZ): XZ {
    var x, z := p.x, p.z;
    XZ(Res((x * x - z * z) * (x * x - z * z)), Res(4 * x * z * (x * x + 486662 * x * z + z * z)))
  }

  function Dot(p: XZ, q: XZ): int { p.x * q.x - p.z * q.z }
  function Cross(p: XZ, q: XZ): int { p.x * q.z - p.z * q.x }

  /** Adds p and q, whose difference has u for its u-coordinate. */
  function DiffAdd(u: nat, p: XZ, q: XZ): XZ {
    XZ(Res(4 * (Dot(p, q) * Dot(p, q))), Res(4 * u * (Cross(p, q) * Cross(p, q))))
  }

  /** Multiples n and n + 1 of the point with x-coordinate u, one bit of n at a time. */
  function Ladder(u: nat, n: nat): Rungs
    decreases n, u
  {
    if n == 0 then Rungs(XZ(1, 0), XZ(u, 1))
    else
      var s := Ladder(u, n / 2);
      var sum := DiffAdd(u, s.p, s.q);
      if n % 2 == 0 then Rungs(Double(s.p), sum) else Rungs(sum, Double(s.q))
  }

  /** The affine x-coordinate, with 0 for the point at infinity. */
  function Affine(p: XZ): (r: nat) ensures r < P { FMul(p.x, FPow(p.z, P - 2)) }

  function Flip(s: Rungs): Rungs { Rungs(s.q, s.p) }

  lemma DotCross(p: XZ, q: XZ)
    ensures Dot(p, q) == Dot(q, p) && Cross(p, q) * Cross(p, q) == Cross(q, p) * Cross(q, p)
  {
    assert Cross(p, q) == -Cross(q, p);
    NegatedSquare(Cross(q, p));
  }

  lemma NegatedSquare(d: int)
    ensures (-d) * (-d) == d * d
  {
  }

  lemma DiffAddCommutes(u: nat, p: XZ, q: XZ)
    ensures DiffAdd(u, p, q) == DiffAdd(u, q, p)
  {
    hide Dot, Cross, Res;
    DotCross(p, q);
  }

  /** The first multiple is the point itself. */
  lemma FirstRung(u: nat)
    ensures Ladder(u, 1).p == XZ(Res(4 * (u * u)), Res(4 * u))
  {
    var p, q := XZ(1, 0), XZ(u, 1);
    assert Ladder(u, 0) == Rungs(p, q) && Ladder(u, 1).p == DiffAdd(u, p, q) by { hide DiffAdd, Double; }
    assert Dot(p, q) == u && Cross(p, q) == 1;
    hide Res, Ladder, Dot, Cross;
    assert 4 * u * (1 * 1) == 4 * u;
  }

  // ---- The loop of RFC 7748, with its deferred swap --------------------------------------

  function RfcStep(u: nat, s: Rungs): Rungs {
    Rungs(Double(s.p), DiffAdd(u, s.p, s.q))
  }

  datatype RfcState = RfcState(rungs: Rungs, swap: nat)

  function CSwap(swap: nat, s: Rungs): Rungs {
    if swap == 1 then Flip(s) else s
  }

  /** The state after the bits 254, ..., t of k. */
  function RfcLoop(u: nat, k: nat, t: nat): RfcState
    requires t <= 255
    decreases 255 - t, u
  {
    if t == 255 then RfcState(Rungs(XZ(1, 0), XZ(u, 1)), 0)
    else
      var s := RfcLoop(u, k, t + 1);
      var bit := (k / Pow2(t)) % 2;
      var swap := (s.swap + bit) % 2;
      RfcState(RfcStep(u, CSwap(swap, s.rungs)), bit)
  }

  function Rfc7748(k: nat, u: nat): nat {
    var s := RfcLoop(u, k, 0);
    Affine(CSwap(s.swap, s.rungs).p)
  }

  /** One iteration: swapping by the exclusive-or of two neighbouring bits keeps the first rung on
      the side that the newer bit names. */
  lemma StepFollowsLadder(u: nat, n: nat, bit: nat, s: Rungs)
    requires bit <= 1 && s == CSwap(n % 2, Ladder(u, n))
    ensures RfcStep(u, CSwap((n % 2 + bit) % 2, s)) == CSwap(bit, Ladder(u, 2 * n + bit)) || 2 * n + bit == 0
  {
    hide DiffAdd, Double;
    var l := Ladder(u, n);
    assert CSwap((n % 2 + bit) % 2, s) == CSwap(bit, l);
    DiffAddCommutes(u, l.p, l.q);
    assert (2 * n + bit) / 2 == n && (2 * n + bit) % 2 == bit;
  }

  lemma PrefixBit(k: nat, t: nat)
    ensures k / Pow2(t) == 2 * (k / Pow2(t + 1)) + (k / Pow2(t)) % 2
  {
    DivTwice(k, Pow2(t), 2);
  }

  const P254: nat := 0x40000000_00000000_00000000_00000000_00000000_00000000_00000000_00000000

  lemma TwoTo255()
    ensures Pow2(254) == P254 && Pow2(255) == P255
  {
    TwoTo50();
    TwoTo200();
    assert Pow2(250) == Pow2(200) * Pow2(50) by { Pow2Add(200, 50); }
    assert Pow2(254) == 16 * Pow2(250) by { Pow2Add(250, 4); assert Pow2(4) == 16; }
  }

  lemma {:induction false} RfcLoopFollowsLadder(u: nat, k: nat, t: nat)
    requires P254 <= k < P255 && t <= 255
    ensures var n := k / Pow2(t); RfcLoop(u, k, t) == RfcState(CSwap(n % 2, Ladder(u, n)), n % 2)
    decreases 255 - t
  {
    hide RfcStep, Pow2;
    if t == 255 {
      TwoTo255();
      DivSmall(k, P255);
    } else {
      RfcLoopFollowsLadder(u, k, t + 1);
      PrefixBit(k, t);
      ScalarPrefixPositive(k, t);
      StepFollowsLadder(u, k / Pow2(t + 1), (k / Pow2(t)) % 2, RfcLoop(u, k, t + 1).rungs);
    }
  }

  lemma DivSmall(k: nat, m: nat)
    requires k < m
    ensures k / m == 0
  {
    ModUnique(k, m, 0, k);
  }

  lemma PrefixPositive(k: nat, t: nat, top: nat)
    requires Pow2(top) <= k && t <= top
    ensures k / Pow2(t) > 0
  {
    Pow2Add(t, top - t);
    var m, n := Pow2(t), Pow2(top - t);
    AtLeast(m, n);
    DivPositive(k, m);
  }

  lemma AtLeast(m: nat, n: nat)
    requires n >= 1
    ensures m * n >= m
  {
  }

  lemma ScalarPrefixPositive(k: nat, t: nat)
    requires P254 <= k && t <= 254
    ensures k / Pow2(t) > 0
  {
    TwoTo255();
    PrefixPositive(k, t, 254);
  }

  lemma DivPositive(k: nat, m: nat)
    requires 0 < m <= k
    ensures k / m > 0
  {
  }

  /** The deferred-swap loop computes the first coordinate of the plain ladder. */
  lemma Rfc7748IsLadder(k: nat, u: nat)
    requires P254 <= k < P255
    ensures Rfc7748(k, u) == Affine(Ladder(u, k).p)
  {
    RfcLoopFollowsLadder(u, k, 0);
    assert k / Pow2(0) == k;
  }

  // ---- Scalars --------------------------------------------------------------------------

  lemma AndLow(x: nat)
    requires x < 256
    ensures And(x, 248) == x - x % 8
  {
    var a, b := x % 8, x / 8;
    assert Pow2(3) == 8 && Pow2(5) == 32 && And(a, 0) == 0;
    assert x == a + b * 8 && b % 32 == b;
    hide And, Pow2;
    AndFields(a, b, 0, 31, 3);
    AndMask(b, 5);
  }

  lemma OrSix(x: nat)
    requires x < 128
    ensures Or(x, 64) == x % 64 + 64
  {
    assert Pow2(6) == 64;
    OrTopBit(x, 6);
  }

  function ClampLow(x: byte): (r: byte)
    ensures r == x - x % 8
  {
    AndLow(x);
    And(x, 248)
  }

  lemma HighBits(x: nat)
    requires x < 256
    ensures Or(And(x, 127), 64) == x % 64 + 64
  {
    hide And, Or;
    assert Pow2(7) == 128;
    AndMask(x, 7);
    OrSix(x % 128);
  }

  function ClampHigh(x: byte): (r: byte)
    ensures r == x % 64 + 64
  {
    HighBits(x);
    Or(And(x, 127), 64)
  }

  function Clamp(s: seq<byte>): (e: seq<byte>)
    requires |s| == 32
    ensures |e| == 32
  {
    s[0 := ClampLow(s[0])][31 := ClampHigh(s[31])]
  }

  const T240: nat := 0x10000_00000000_00000000_00000000_00000000_00000000_00000000_00000000
  const T248: nat := 0x1000000_00000000_00000000_00000000_00000000_00000000_00000000_00000000

  /** decodeScalar25519 and decodeUCoordinate. */
  function DecodeScalar(s: seq<byte>): nat requires |s| == 32 { LE(Clamp(s)) }
  function DecodeU(s: seq<byte>): nat { LE(s) % P255 % P }

  lemma Ends(s: seq<nat>, t: seq<nat>)
    requires |s| == 32 && t == s[1..31]
    ensures LE(s) == s[0] + 0x100 * LE(t) + T248 * s[31]
  {
    assert s[1..] == t + [s[31]];
    LEAppend(t, [s[31]]);
    assert LE([s[31]]) == s[31];
    TwoTo240();
  }

  lemma TwoTo240()
    ensures Pow2(240) == T240
  {
    TwoTo200();
    assert Pow2(40) == 0x100_0000_0000 by { BytePowers(); }
    Pow2Add(200, 40);
  }

  lemma ClampEnds(m: int, a: int, a3: int, b: int, b6: int)
    requires 0 <= a3 < 8 && 0 <= b6 < 64 && 0 <= a <= 31 && 0 <= b <= 3 && 0 <= m < T240
    ensures var v := (a3 + 8 * a) + 0x100 * m + T248 * (b6 + 64 * b);
      v % P254 == (a3 + 8 * a) + 0x100 * m + T248 * b6 && v % 8 == a3
  {
    var v := (a3 + 8 * a) + 0x100 * m + T248 * (b6 + 64 * b);
    ModUnique(v, P254, b, (a3 + 8 * a) + 0x100 * m + T248 * b6);
    ModUnique(v, 8, a + 32 * m + (T248 / 8) * (b6 + 64 * b), a3);
  }

  lemma ClampBytes(s: seq<byte>)
    requires |s| == 32
    ensures Clamp(s)[0] == s[0] - s[0] % 8 && Clamp(s)[31] == s[31] % 64 + 64 && Clamp(s)[1..31] == s[1..31]
  {
  }

  /** Clamping clears the three low bits and fixes the two high ones; nothing else changes. */
  lemma ClampValue(s: seq<byte>)
    requires |s| == 32
    ensures LE(Clamp(s)) == P254 + LE(s) % P254 - LE(s) % 8
  {
    hide LE, Clamp, Pow2;
    var e, t := Clamp(s), s[1..31];
    ClampBytes(s);
    LEBound(t);
    TwoTo240();
    Ends(s, t);
    Ends(e, t);
    ClampEnds(LE(t), s[0] / 8, s[0] % 8, s[31] / 64, s[31] % 64);
  }

  lemma FieldBit(a: nat, v: nat, m: nat, h: nat)
    requires m > 0 && m * (2 * h) == 0x100
    ensures ((a + 0x100 * v) / m) % 2 == (a / m) % 2
  {
    var q, r := a / m, a % m;
    assert a + 0x100 * v == m * (q + 2 * (h * v)) + r by { Distribute3(m, h, v, q); }
    ModUnique(a + 0x100 * v, m, q + 2 * (h * v), r);
  }

  lemma Distribute3(m: int, h: int, v: int, q: int)
    ensures m * (q + 2 * (h * v)) == m * q + (m * (2 * h)) * v
  {
  }

  lemma LowBit(a: nat, v: nat, pos: nat)
    requires pos < 8
    ensures ((a + 0x100 * v) / Pow2(pos)) % 2 == (a / Pow2(pos)) % 2
  {
    Pow2Add(pos, 8 - pos);
    assert Pow2(8) == 0x100;
    hide Pow2;
    assert Pow2(8 - pos) == 2 * Pow2(7 - pos) by { Pow2Add(1, 7 - pos); PowerOne(); }
    FieldBit(a, v, Pow2(pos), Pow2(7 - pos));
  }

  lemma PowerOne()
    ensures Pow2(1) == 2
  {
  }

  lemma SkipByte(v: nat, pos: nat)
    requires pos >= 8
    ensures v / Pow2(pos) == (v / 0x100) / Pow2(pos - 8)
  {
    Pow2Next8(pos - 8);
    DivTwice(v, 0x100, Pow2(pos - 8));
  }

  /** Bit `pos & 7` of byte `pos >> 3` is bit `pos` of the number. */
  lemma {:induction false} BitOfBytes(e: seq<byte>, pos: nat)
    requires pos < 8 * |e|
    ensures (e[pos / 8] / Pow2(pos % 8)) % 2 == (LE(e) / Pow2(pos)) % 2
    decreases pos
  {
    hide Pow2;
    if pos < 8 {
      LowBit(e[0], LE(e[1..]), pos);
    } else {
      BitOfBytes(e[1..], pos - 8);
      assert LE(e) / 0x100 == LE(e[1..]);
      SkipByte(LE(e), pos);
      assert (pos - 8) / 8 == pos / 8 - 1 && (pos - 8) % 8 == pos % 8;
    }
  }

  // ---- The ladder on limb vectors -------------------------------------------------------

  ghost predicate Holds(x: array<u64>, v: nat)
    reads x
  {
    x.Length == 5 && Tight(x[..]) && Elem(x[..]) == v
  }

  ghost predicate HoldsPoint(x: array<u64>, z: array<u64>, p: XZ)
    reads x, z
  {
    Holds(x, p.x) && Holds(z, p.z)
  }

  lemma MaskedSwap(x: u64, y: u64, swap: nat, mask: u64)
    requires swap <= 1 && mask == (if swap == 1 then 0xffff_ffff_ffff_ffff else 0)
    ensures var t := And(mask, Xor(x, y));
      Xor(x, t) == (if swap == 1 then y else x) && Xor(y, t) == (if swap == 1 then x else y)
  {
    TwoTo64();
    XorBound(x, y, 64);
    AndOnes64(Xor(x, y));
    XorCancels(x, y);
    XorCancels(y, x);
    XorCommutes(x, y);
  }

  /** The constant-time exchange of two limb vectors, limb by limb under a mask. */
  method SwapLimbs(swap: nat, x: array<u64>, y: array<u64>)
    requires swap <= 1 && x.Length == y.Length == 5 && x != y
    modifies x, y
    ensures x[..] == (if swap == 1 then old(y[..]) else old(x[..]))
    ensures y[..] == (if swap == 1 then old(x[..]) else old(y[..]))
  {
    hide And, Xor;
    var mask: u64 := if swap == 1 then 0xffff_ffff_ffff_ffff else 0;
    for i := 0 to 5
      invariant forall j :: 0 <= j < i ==>
        x[j] == (if swap == 1 then old(y[j]) else old(x[j])) && y[j] == (if swap == 1 then old(x[j]) else old(y[j]))
      invariant forall j :: i <= j < 5 ==> x[j] == old(x[j]) && y[j] == old(y[j])
    {
      MaskedSwap(x[i], y[i], swap, mask);
      var t := And(mask, Xor(x[i], y[i]));
      x[i], y[i] := Xor(x[i], t), Xor(y[i], t);
    }
  }

  /** The exchange of (x2, z2) with (x3, z3). */
  method CondSwap(swap: nat, x2: array<u64>, z2: array<u64>, x3: array<u64>, z3: array<u64>, ghost s: Rungs)
    requires swap <= 1
    requires HoldsPoint(x2, z2, s.p) && HoldsPoint(x3, z3, s.q)
    requires x2 != z2 && x2 != x3 && x2 != z3 && z2 != x3 && z2 != z3 && x3 != z3
    modifies x2, z2, x3, z3
    ensures HoldsPoint(x2, z2, CSwap(swap, s).p) && HoldsPoint(x3, z3, CSwap(swap, s).q)
  {
    SwapLimbs(swap, x2, x3);
    SwapLimbs(swap, z2, z3);
  }

  /** The four products that both halves of a step start from. */
  method Products(aa: array<u64>, bb: array<u64>, da: array<u64>, cb: array<u64>,
                  x2: array<u64>, z2: array<u64>, x3: array<u64>, z3: array<u64>, ghost s: Rungs)
    requires aa.Length == bb.Length == da.Length == cb.Length == 5
    requires aa != bb && aa != da && aa != cb && bb != da && bb != cb && da != cb
    requires {aa, bb, da, cb} !! {x2, z2, x3, z3}
    requires HoldsPoint(x2, z2, s.p) && HoldsPoint(x3, z3, s.q)
    modifies aa, bb, da, cb
    ensures Holds(aa, FMul(Plus(s.p), Plus(s.p))) && Holds(bb, FMul(Minus(s.p), Minus(s.p)))
    ensures Holds(da, FMul(Minus(s.q), Plus(s.p))) && Holds(cb, FMul(Plus(s.q), Minus(s.p)))
  {
    hide Loose, FMul;
    var a, b := new u64[5], new u64[5];
    SquareHalf(a, b, aa, bb, x2, z2, s.p);
    CrossHalf(a, b, da, cb, x3, z3, s);
  }

  method SquareHalf(a: array<u64>, b: array<u64>, aa: array<u64>, bb: array<u64>, x2: array<u64>, z2: array<u64>,
                    ghost p: XZ)
    requires a.Length == b.Length == aa.Length == bb.Length == 5
    requires a !in {b, aa, bb, x2, z2} && b !in {aa, bb, x2, z2} && aa !in {bb, x2, z2} && bb !in {x2, z2}
    requires HoldsPoint(x2, z2, p)
    modifies a, b, aa, bb
    ensures Loose(a[..]) && Elem(a[..]) == Plus(p) && Loose(b[..]) && Elem(b[..]) == Minus(p)
    ensures Holds(aa, FMul(Plus(p), Plus(p))) && Holds(bb, FMul(Minus(p), Minus(p)))
  {
    FeAdd(a, x2, z2);
    FeMul(aa, a, a);
    FeSub(b, x2, z2);
    FeMul(bb, b, b);
  }

  method CrossHalf(a: array<u64>, b: array<u64>, da: array<u64>, cb: array<u64>, x3: array<u64>, z3: array<u64>,
                   ghost s: Rungs)
    requires a.Length == b.Length == da.Length == cb.Length == 5 && da != cb && {da, cb} !! {a, b, x3, z3}
    requires Loose(a[..]) && Elem(a[..]) == Plus(s.p) && Loose(b[..]) && Elem(b[..]) == Minus(s.p)
    requires HoldsPoint(x3, z3, s.q)
    modifies da, cb
    ensures Holds(da, FMul(Minus(s.q), Plus(s.p))) && Holds(cb, FMul(Plus(s.q), Minus(s.p)))
  {
    var c, d := new u64[5], new u64[5];
    FeAdd(c, x3, z3);
    FeSub(d, x3, z3);
    FeMul(da, d, a);
    FeMul(cb, c, b);
  }

  lemma AddPolynomials(u: int, p: XZ, q: XZ)
    ensures var a, b := (q.x - q.z) * (p.x + p.z), (q.x + q.z) * (p.x - p.z);
      && (a + b) * (a + b) == 4 * (Dot(p, q) * Dot(p, q))
      && u * ((a - b) * (a - b)) == 4 * u * (Cross(p, q) * Cross(p, q))
  {
    var a, b := (q.x - q.z) * (p.x + p.z), (q.x + q.z) * (p.x - p.z);
    var s, d := Dot(p, q), Cross(p, q);
    assert a == p.x * q.x + p.z * q.x - p.x * q.z - p.z * q.z;
    assert b == p.x * q.x - p.z * q.x + p.x * q.z - p.z * q.z;
    assert a + b == 2 * s && a - b == -2 * d;
    hide Dot, Cross;
    TwiceSquared(s);
    TwiceSquared(-d);
    NegatedSquare(d);
    assert u * (4 * (d * d)) == 4 * u * (d * d);
  }

  lemma TwiceSquared(s: int)
    ensures (2 * s) * (2 * s) == 4 * (s * s)
  {
  }

  lemma DoublePolynomials(x: int, z: int)
    ensures var a, b := (x + z) * (x + z), (x - z) * (x - z);
      && a * b == (x * x - z * z) * (x * x - z * z)
      && (a - b) * (a + 121665 * (a - b)) == 4 * x * z * (x * x + 486662 * x * z + z * z)
  {
    var s, t, p := x * x, z * z, x * z;
    var a, b := (x + z) * (x + z), (x - z) * (x - z);
    assert a == s + 2 * p + t && b == s - 2 * p + t;
    assert p * p == s * t by { ProductSquared(x, z); }
    assert a * b == (s + t) * (s + t) - 4 * (p * p) by { SumTimesDifference(s + t, 2 * p); }
    assert (s + t) * (s + t) - 4 * (s * t) == (s - t) * (s - t);
    assert a - b == 4 * p;
    assert a + 121665 * (a - b) == s + 486662 * p + t;
    assert 486662 * x * z == 486662 * p && 4 * x * z == 4 * p;
  }

  lemma ProductSquared(x: int, z: int)
    ensures (x * z) * (x * z) == (x * x) * (z * z)
  {
  }

  lemma SumTimesDifference(m: int, d: int)
    ensures (m + d) * (m - d) == m * m - d * d
  {
  }

  lemma Scaled(u: int, d: int)
    ensures FMul(u, d % P) == (u * d) % P
  {
    FMulResidues(u, d);
    FMulResidues(u, d % P);
  }

  /** The values that the code computes for the two halves of a step. */
  function CodeDouble(p: XZ): XZ {
    var aa, bb := FMul(Plus(p), Plus(p)), FMul(Minus(p), Minus(p));
    var e := FSub(aa, bb);
    XZ(FMul(aa, bb), FMul(e, FAdd(aa, FMul(121665, e))))
  }

  function CodeAdd(u: nat, p: XZ, q: XZ): XZ {
    var da, cb := FMul(Minus(q), Plus(p)), FMul(Plus(q), Minus(p));
    var s, d := FAdd(da, cb), FSub(da, cb);
    XZ(FMul(s, s), FMul(u, FMul(d, d)))
  }

  method AddHalf(x3: array<u64>, z3: array<u64>, x1: array<u64>, da: array<u64>, cb: array<u64>, ghost u: nat,
                 ghost s: Rungs)
    requires x3.Length == z3.Length == 5 && x3 != z3 && {x3, z3} !! {x1, da, cb}
    requires Holds(x1, u)
    requires Holds(da, FMul(Minus(s.q), Plus(s.p))) && Holds(cb, FMul(Plus(s.q), Minus(s.p)))
    modifies x3, z3
    ensures HoldsPoint(x3, z3, CodeAdd(u, s.p, s.q))
  {
    var tmp0, tmp1 := new u64[5], new u64[5];
    FeAdd(tmp0, da, cb);
    FeMul(x3, tmp0, tmp0);
    FeSub(tmp0, da, cb);
    FeMul(tmp1, tmp0, tmp0);
    FeMul(z3, x1, tmp1);
  }

  method DoubleHalf(x2: array<u64>, z2: array<u64>, aa: array<u64>, bb: array<u64>, ghost p: XZ)
    requires x2.Length == z2.Length == 5 && x2 != z2 && {x2, z2} !! {aa, bb}
    requires Holds(aa, FMul(Plus(p), Plus(p))) && Holds(bb, FMul(Minus(p), Minus(p)))
    modifies x2, z2
    ensures HoldsPoint(x2, z2, CodeDouble(p))
  {
    var e, tmp0, tmp1 := new u64[5], new u64[5], new u64[5];
    FeSub(e, aa, bb);
    FeMul(x2, aa, bb);
    FeMul121666(tmp0, e);
    FeAdd(tmp1, aa, tmp0);
    FeMul(z2, e, tmp1);
  }

  method AddRung(x3: array<u64>, z3: array<u64>, x1: array<u64>, da: array<u64>, cb: array<u64>, ghost u: nat,
                 ghost s: Rungs)
    requires x3.Length == z3.Length == 5 && x3 != z3 && {x3, z3} !! {x1, da, cb}
    requires Holds(x1, u)
    requires Holds(da, FMul(Minus(s.q), Plus(s.p))) && Holds(cb, FMul(Plus(s.q), Minus(s.p)))
    modifies x3, z3
    ensures HoldsPoint(x3, z3, DiffAdd(u, s.p, s.q))
  {
    hide Holds;
    AddHalf(x3, z3, x1, da, cb, u, s);
    ghost var p, q := s.p, s.q;
    assert CodeAdd(u, p, q) == DiffAdd(u, p, q) by {
      ghost var a, b := (q.x - q.z) * (p.x + p.z), (q.x + q.z) * (p.x - p.z);
      FMulResidues(q.x - q.z, p.x + p.z);
      FMulResidues(q.x + q.z, p.x - p.z);
      FAddResidues(a, b);
      FSubResidues(a, b);
      FMulResidues(a + b, a + b);
      FMulResidues(a - b, a - b);
      Scaled(u, (a - b) * (a - b));
      AddPolynomials(u, p, q);
      hide FMul, FAdd, FSub, Dot, Cross;
    }
  }

  method DoubleRung(x2: array<u64>, z2: array<u64>, aa: array<u64>, bb: array<u64>, ghost p: XZ)
    requires x2.Length == z2.Length == 5 && x2 != z2 && {x2, z2} !! {aa, bb}
    requires Holds(aa, FMul(Plus(p), Plus(p))) && Holds(bb, FMul(Minus(p), Minus(p)))
    modifies x2, z2
    ensures HoldsPoint(x2, z2, Double(p))
  {
    hide Holds;
    DoubleHalf(x2, z2, aa, bb, p);
    assert CodeDouble(p) == Double(p) by {
      ghost var a, b := (p.x + p.z) * (p.x + p.z), (p.x - p.z) * (p.x - p.z);
      FMulResidues(p.x + p.z, p.x + p.z);
      FMulResidues(p.x - p.z, p.x - p.z);
      FMulResidues(a, b);
      FSubResidues(a, b);
      Scaled(121665, a - b);
      FAddResidues(a, 121665 * (a - b));
      FMulResidues(a - b, a + 121665 * (a - b));
      DoublePolynomials(p.x, p.z);
      hide FMul, FAdd, FSub;
    }
  }

  method LadderStep(x1: array<u64>, x2: array<u64>, z2: array<u64>, x3: array<u64>, z3: array<u64>, ghost u: nat,
                    ghost s: Rungs)
    requires Holds(x1, u) && HoldsPoint(x2, z2, s.p) && HoldsPoint(x3, z3, s.q)
    requires x1 !in {x2, z2, x3, z3} && x2 !in {z2, x3, z3} && z2 !in {x3, z3} && x3 != z3
    modifies x2, z2, x3, z3
    ensures HoldsPoint(x2, z2, RfcStep(u, s).p) && HoldsPoint(x3, z3, RfcStep(u, s).q)
  {
    hide FMul, Double, DiffAdd;
    var aa, bb, da, cb := new u64[5], new u64[5], new u64[5], new u64[5];
    Products(aa, bb, da, cb, x2, z2, x3, z3, s);
    AddRung(x3, z3, x1, da, cb, u, s);
    DoubleRung(x2, z2, aa, bb, s.p);
  }

  method SetSmall(x: array<u64>, v: u64)
    requires x.Length == 5 && v <= 1
    modifies x
    ensures Holds(x, v)
  {
    x[0], x[1], x[2], x[3], x[4] := v, 0, 0, 0, 0;
    assert Val(x[..]) == v;
  }

  lemma TopPrefix(k: nat)
    requires k < P255
    ensures k / Pow2(255) == 0
  {
    TwoTo255();
    DivSmall(k, P255);
  }

  lemma WholePrefix(k: nat)
    ensures k / Pow2(0) == k
  {
  }

  /** What holds between iterations: the rungs for the prefix n, exchanged if n is odd. */
  ghost predicate OnLadder(x1: array<u64>, x2: array<u64>, z2: array<u64>, x3: array<u64>, z3: array<u64>, u: nat,
                           n: nat)
    reads x1, x2, z2, x3, z3
  {
    && Holds(x1, u)
    && HoldsPoint(x2, z2, CSwap(n % 2, Ladder(u, n)).p)
    && HoldsPoint(x3, z3, CSwap(n % 2, Ladder(u, n)).q)
  }

  method LadderBit(b: nat, swap: nat, x1: array<u64>, x2: array<u64>, z2: array<u64>, x3: array<u64>, z3: array<u64>,
                   ghost u: nat, ghost n: nat)
    requires b <= 1 && swap == n % 2 && 2 * n + b > 0
    requires OnLadder(x1, x2, z2, x3, z3, u, n)
    requires x1 !in {x2, z2, x3, z3} && x2 !in {z2, x3, z3} && z2 !in {x3, z3} && x3 != z3
    modifies x2, z2, x3, z3
    ensures OnLadder(x1, x2, z2, x3, z3, u, 2 * n + b)
  {
    hide Ladder, RfcStep, Holds, HoldsPoint;
    ghost var s := CSwap(swap, Ladder(u, n));
    StepFollowsLadder(u, n, b, s);
    var swap' := (swap + b) % 2;
    CondSwap(swap', x2, z2, x3, z3, s);
    LadderStep(x1, x2, z2, x3, z3, u, CSwap(swap', s));
    assert (2 * n + b) % 2 == b;
  }

  /** The bit loop, from 254 down to 0. */
  method LadderLoop(e: seq<byte>, x1: array<u64>, x2: array<u64>, z2: array<u64>, x3: array<u64>, z3: array<u64>,
                    ghost u: nat)
    returns (swap: nat)
    requires |e| == 32 && P254 <= LE(e) < P255
    requires OnLadder(x1, x2, z2, x3, z3, u, 0)
    requires x1 !in {x2, z2, x3, z3} && x2 !in {z2, x3, z3} && z2 !in {x3, z3} && x3 != z3
    modifies x2, z2, x3, z3
    ensures swap == LE(e) % 2 && OnLadder(x1, x2, z2, x3, z3, u, LE(e))
  {
    ghost var k := LE(e);
    hide LE, Pow2, OnLadder;
    swap := 0;
    TopPrefix(k);
    ghost var n: nat := 0;
    var pos: nat := 255;
    while pos > 0
      invariant pos <= 255 && n == k / Pow2(pos) && swap == n % 2
      invariant OnLadder(x1, x2, z2, x3, z3, u, n)
    {
      pos := pos - 1;
      var b := (e[pos / 8] / Pow2(pos % 8)) % 2;
      BitOfBytes(e, pos);
      PrefixBit(k, pos);
      ScalarPrefixPositive(k, pos);
      LadderBit(b, swap, x1, x2, z2, x3, z3, u, n);
      swap := b;
      n := 2 * n + b;
    }
    WholePrefix(k);
  }

  method LoadElement(x: array<u64>, s: array<byte>)
    requires x.Length == 5 && s.Length == 32
    modifies x
    ensures Holds(x, DecodeU(s[..]))
  {
    FeFromBytes(x, s);
  }

  method CopyElement(x: array<u64>, y: array<u64>, ghost v: nat)
    requires x.Length == 5 && Holds(y, v)
    modifies x
    ensures Holds(x, v)
  {
    x[0], x[1], x[2], x[3], x[4] := y[0], y[1], y[2], y[3], y[4];
    assert x[..] == [y[0], y[1], y[2], y[3], y[4]] == old(y[..]);
  }

  method Start(x1: array<u64>, x2: array<u64>, z2: array<u64>, x3: array<u64>, z3: array<u64>, point: array<byte>)
    requires x1.Length == x2.Length == z2.Length == x3.Length == z3.Length == 5 && point.Length == 32
    requires x1 !in {x2, z2, x3, z3} && x2 !in {z2, x3, z3} && z2 !in {x3, z3} && x3 != z3
    modifies x1, x2, z2, x3, z3
    ensures OnLadder(x1, x2, z2, x3, z3, DecodeU(point[..]), 0)
  {
    hide DecodeU, Holds;
    LoadElement(x1, point);
    SetSmall(x2, 1);
    SetSmall(z2, 0);
    CopyElement(x3, x1, DecodeU(point[..]));
    SetSmall(z3, 1);
  }

  method Finish(out: array<byte>, x2: array<u64>, z2: array<u64>, ghost p: XZ)
    requires out.Length == 32 && x2 != z2 && HoldsPoint(x2, z2, p)
    modifies out, x2, z2
    ensures LE(out[..]) == Affine(p)
  {
    hide LE, FPow;
    FeInvert(z2, z2);
    FeMul(x2, x2, z2);
    FeToBytes(out, x2);
  }

  /** The loop, the final exchange and the conversion to affine form. */
  method Climb(out: array<byte>, e: seq<byte>, point: array<byte>)
    requires out.Length == point.Length == 32 && |e| == 32 && P254 <= LE(e) < P255
    modifies out
    ensures LE(out[..]) == Affine(Ladder(old(DecodeU(point[..])), LE(e)).p)
  {
    hide LE, DecodeU, Ladder, Affine, Holds;
    ghost var u := DecodeU(point[..]);
    var x1, x2, z2, x3, z3 := new u64[5], new u64[5], new u64[5], new u64[5], new u64[5];
    Start(x1, x2, z2, x3, z3, point);
    var swap := LadderLoop(e, x1, x2, z2, x3, z3, u);
    ghost var s := Ladder(u, LE(e));
    CondSwap(swap, x2, z2, x3, z3, CSwap(swap, s));
    Finish(out, x2, z2, s.p);
  }

  /** The whole multiplication: the output is the canonical encoding of the x-coordinate that the
      ladder on residues gives for the clamped scalar and the point with its top bit cleared, and
      of what the loop of RFC 7748 gives. */
  method X25519Ladder(out: array<byte>, scalar: array<byte>, point: array<byte>)
    requires out.Length == scalar.Length == point.Length == 32
    modifies out
    ensures var k, u := old(DecodeScalar(scalar[..])), old(DecodeU(point[..]));
      LE(out[..]) == Affine(Ladder(u, k).p) == Rfc7748(k, u) < P
  {
    hide LE, Clamp, DecodeU, Ladder, Affine, Rfc7748;
    var e := Clamp(scalar[..]);
    ClampValue(scalar[..]);
    Rfc7748IsLadder(LE(e), DecodeU(point[..]));
    Climb(out, e, point);
  }

  /** The multiplication on byte strings. */
  function Dh(priv: seq<byte>, pub: seq<byte>): (r: seq<byte>)
    requires |priv| == |pub| == 32
    ensures |r| == 32
  {
    ShiftBytes(Affine(Ladder(DecodeU(pub), DecodeScalar(priv)).p), 32)
  }

  const BASEPOINT: seq<byte> := [9] + Zeros(31)

  lemma BasePointIs()
    ensures |BASEPOINT| == 32 && DecodeU(BASEPOINT) == 9
  {
    var z := Zeros(31);
    assert BASEPOINT[0] == 9 && BASEPOINT[1..] == z;
    assert LE(BASEPOINT) == BASEPOINT[0] + 0x100 * LE(BASEPOINT[1..]);
    hide LE;
    LEZeros(z);
    hide Zeros;
  }

  lemma CanonicalBytes(b: seq<byte>, v: nat)
    requires |b| == 32 && LE(b) == v < P
    ensures b == ShiftBytes(v, 32)
  {
    hide LE, ShiftBytes, Pow2;
    TwoTo255();
    Pow2Step(255);
    ShiftBytesValue(v, 32);
    LEInjective(b, ShiftBytes(v, 32));
  }

  /** The check for an all-zero result looks at every byte. */
  method IsZero(s: seq<byte>) returns (yes: bool)
    ensures yes <==> s == Zeros(|s|)
  {
    hide Or;
    var zero: nat := 0;
    for i := 0 to |s|
      invariant zero == 0 <==> forall j :: 0 <= j < i ==> s[j] == 0
    {
      OrIsZero(zero, s[i]);
      zero := Or(zero, s[i]);
    }
    yes := zero == 0;
  }

  method Curve25519(shared: array<byte>, priv: array<byte>, pub: array<byte>) returns (ok: bool)
    requires shared.Length == priv.Length == pub.Length == 32
    modifies shared
    ensures shared[..] == Dh(old(priv[..]), old(pub[..]))
    ensures ok <==> shared[..] != Zeros(32)
  {
    hide LE, DecodeScalar, DecodeU, Ladder, Affine;
    ghost var k, u := DecodeScalar(priv[..]), DecodeU(pub[..]);
    X25519Ladder(shared, priv, pub);
    CanonicalBytes(shared[..], Affine(Ladder(u, k).p));
    var zero := IsZero(shared[..]);
    ok := !zero;
  }

  method GeneratePublic(pub: array<byte>, priv: array<byte>)
    requires pub.Length == priv.Length == 32
    modifies pub
    ensures pub[..] == Dh(old(priv[..]), BASEPOINT)
  {
    hide LE, DecodeScalar, DecodeU, Ladder, Affine;
    var base := new byte[32](i requires 0 <= i < 32 => BASEPOINT[i]);
    assert base[..] == BASEPOINT;
    ghost var k, u := DecodeScalar(priv[..]), DecodeU(BASEPOINT);
    X25519Ladder(pub, priv, base);
    CanonicalBytes(pub[..], Affine(Ladder(u, k).p));
  }
}
