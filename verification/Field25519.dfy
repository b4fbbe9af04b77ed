/** Arithmetic in GF(2^255 - 19) on five 51-bit limbs, against arithmetic on residues. */
module Field25519 {
  import opened Words

  const P: nat := 0x7fffffff_ffffffff_ffffffff_ffffffff_ffffffff_ffffffff_ffffffff_ffffffed
  const X51: nat := 0x8_0000_0000_0000

  // ---- Residues -------------------------------------------------------------------------

  function FAdd(a: int, b: int): (r: nat) ensures r < P { (a + b) % P }
  function FSub(a: int, b: int): (r: nat) ensures r < P { (a - b) % P }
  function FMul(a: int, b: int): (r: nat) ensures r < P { (a * b) % P }

  lemma CongShift(a: int, b: int, k: int)
    requires a == b + P * k
    ensures a % P == b % P
  {
    ModUnique(a, P, b / P + k, b % P);
  }

  lemma FAddResidues(a: int, b: int)
    ensures FAdd(a % P, b % P) == (a + b) % P
  {
    CongShift(a + b, a % P + b % P, a / P + b / P);
  }

  lemma FSubResidues(a: int, b: int)
    ensures FSub(a % P, b % P) == (a - b) % P
  {
    CongShift(a - b, a % P - b % P, a / P - b / P);
  }

  lemma FMulResidues(a: int, b: int)
    ensures FMul(a % P, b % P) == (a * b) % P
  {
    var qa, ra, qb, rb := a / P, a % P, b / P, b % P;
    calc {
      a * b;
      (P * qa + ra) * (P * qb + rb);
      { Expand(P, qa, ra, qb, rb); }
      ra * rb + P * (qa * (P * qb + rb) + ra * qb);
    }
    CongShift(a * b, ra * rb, qa * (P * qb + rb) + ra * qb);
  }

  lemma Expand(p: int, qa: int, ra: int, qb: int, rb: int)
    ensures (p * qa + ra) * (p * qb + rb) == ra * rb + p * (qa * (p * qb + rb) + ra * qb)
  {
    var b := p * qb + rb;
    assert (p * qa + ra) * b == p * qa * b + ra * b;
    assert p * qa * b == p * (qa * b);
    assert ra * b == ra * rb + ra * (p * qb);
    assert ra * (p * qb) == p * (ra * qb);
  }

  // ---- Limb vectors ---------------------------------------------------------------------

  function Weigh(a: int, b: int, c: int, d: int, e: int): int {
    a + X51 * b + (X51 * X51) * c + (X51 * X51 * X51) * d + (X51 * X51 * X51 * X51) * e
  }

  function Val(h: seq<u64>): nat
    requires |h| == 5
  {
    Weigh(h[0], h[1], h[2], h[3], h[4])
  }

  function Elem(h: seq<u64>): (r: nat)
    requires |h| == 5
    ensures r < P
  {
    Val(h) % P
  }

  /** What every multiplication leaves behind: only the second limb may exceed 51 bits. */
  predicate Tight(h: seq<u64>) {
    |h| == 5 && h[0] < X51 && h[1] < X51 + 0x2000 && h[2] < X51 && h[3] < X51 && h[4] < X51
  }

  /** What a multiplication accepts: one addition or subtraction of tight vectors. */
  predicate Loose(h: seq<u64>) {
    |h| == 5 && forall i :: 0 <= i < 5 ==> h[i] < 4 * X51
  }

  lemma SumElem(f: seq<u64>, g: seq<u64>, h: seq<u64>)
    requires |f| == |g| == |h| == 5 && Val(h) == Val(f) + Val(g)
    ensures Elem(h) == FAdd(Elem(f), Elem(g))
  {
    hide Val, FAdd;
    FAddResidues(Val(f), Val(g));
  }

  method FeAdd(h: array<u64>, f: array<u64>, g: array<u64>)
    requires h.Length == f.Length == g.Length == 5
    requires Tight(f[..]) && Tight(g[..])
    modifies h
    ensures Loose(h[..]) && Elem(h[..]) == FAdd(old(Elem(f[..])), old(Elem(g[..])))
  {
    ghost var sf, sg := f[..], g[..];
    var r0: u64, r1: u64, r2: u64, r3: u64, r4: u64 :=
      f[0] + g[0], f[1] + g[1], f[2] + g[2], f[3] + g[3], f[4] + g[4];
    h[0], h[1], h[2], h[3], h[4] := r0, r1, r2, r3, r4;
    hide Elem, FAdd;
    assert Val(h[..]) == Val(sf) + Val(sg);
    SumElem(sf, sg, h[..]);
  }

  /** Adds 2P first, so that no limb goes below zero. */
  method FeSub(h: array<u64>, f: array<u64>, g: array<u64>)
    requires h.Length == f.Length == g.Length == 5
    requires Tight(f[..]) && Tight(g[..])
    modifies h
    ensures Loose(h[..]) && Elem(h[..]) == FSub(old(Elem(f[..])), old(Elem(g[..])))
  {
    ghost var vf, vg := Val(f[..]), Val(g[..]);
    var r0: u64 := f[0] + 0xfffffffffffda - g[0];
    var r1: u64 := f[1] + 0xffffffffffffe - g[1];
    var r2: u64 := f[2] + 0xffffffffffffe - g[2];
    var r3: u64 := f[3] + 0xffffffffffffe - g[3];
    var r4: u64 := f[4] + 0xffffffffffffe - g[4];
    h[0], h[1], h[2], h[3], h[4] := r0, r1, r2, r3, r4;
    assert Val(h[..]) == vf - vg + P * 2;
    CongShift(vf - vg + P * 2, vf - vg, 2);
    FSubResidues(vf, vg);
  }

  /** The carry chain that ends both multiplications. */
  method Carry(h: array<u64>, a0: u128, a1: u128, a2: u128, a3: u128, a4: u128)
    requires h.Length == 5
    requires a0 < 1232 * X51 * X51 && a1 < 1232 * X51 * X51 && a2 < 1232 * X51 * X51
    requires a3 < 1232 * X51 * X51 && a4 < 80 * X51 * X51
    modifies h
    ensures Tight(h[..])
    ensures Elem(h[..]) == Weigh(a0, a1, a2, a3, a4) % P
  {
    var c0: u64, h0 := a0 / X51, a0 % X51;
    var t1: u128 := a1 + c0;
    var c1: u64, h1 := t1 / X51, t1 % X51;
    var t2: u128 := a2 + c1;
    var c2: u64, h2 := t2 / X51, t2 % X51;
    var t3: u128 := a3 + c2;
    var c3: u64, h3 := t3 / X51, t3 % X51;
    var t4: u128 := a4 + c3;
    var c4: u64, h4 := t4 / X51, t4 % X51;
    var c19: u64 := c4 * 19;
    var w0: u64 := h0 + c19;
    var c5: u64 := w0 / X51;
    h[0], h[1], h[2], h[3], h[4] := w0 % X51, h1 + c5, h2, h3, h4;
    Carried(a0, a1, a2, a3, a4, c0, c1, c2, c3, c4, h0, h1, h2, h3, h4, c5, w0 % X51);
    CongShift(Weigh(a0, a1, a2, a3, a4), Val(h[..]), c4);
  }

  lemma Carried(a0: int, a1: int, a2: int, a3: int, a4: int, c0: int, c1: int, c2: int, c3: int, c4: int,
                h0: int, h1: int, h2: int, h3: int, h4: int, c5: int, w0: int)
    requires a0 == X51 * c0 + h0 && a1 + c0 == X51 * c1 + h1 && a2 + c1 == X51 * c2 + h2
    requires a3 + c2 == X51 * c3 + h3 && a4 + c3 == X51 * c4 + h4 && h0 + c4 * 19 == X51 * c5 + w0
    ensures Weigh(a0, a1, a2, a3, a4) == Weigh(w0, h1 + c5, h2, h3, h4) + P * c4
  {
  }

  lemma MulBound(a: nat, b: nat, m: nat, n: nat)
    requires a < m && b < n
    ensures 0 <= a * b < m * n
  {
    assert a * b <= a * n;
    assert a * n < m * n;
  }

  /** Schoolbook product with the limbs above the fifth folded down by 2^255 = P + 19. */
  lemma Folded(f0: int, f1: int, f2: int, f3: int, f4: int, g0: int, g1: int, g2: int, g3: int, g4: int)
    ensures
      Weigh(f0, f1, f2, f3, f4) * Weigh(g0, g1, g2, g3, g4) ==
      Weigh(f0 * g0 + f1 * (g4 * 19) + f2 * (g3 * 19) + f3 * (g2 * 19) + f4 * (g1 * 19),
            f0 * g1 + f1 * g0 + f2 * (g4 * 19) + f3 * (g3 * 19) + f4 * (g2 * 19),
            f0 * g2 + f1 * g1 + f2 * g0 + f3 * (g4 * 19) + f4 * (g3 * 19),
            f0 * g3 + f1 * g2 + f2 * g1 + f3 * g0 + f4 * (g4 * 19),
            f0 * g4 + f1 * g3 + f2 * g2 + f3 * g1 + f4 * g0)
      + P * Weigh(f1 * g4 + f2 * g3 + f3 * g2 + f4 * g1, f2 * g4 + f3 * g3 + f4 * g2, f3 * g4 + f4 * g3, f4 * g4, 0)
  {
  }

  /** The five column sums, each within 128 bits. */
  method Columns(f0: nat, f1: nat, f2: nat, f3: nat, f4: nat, g0: nat, g1: nat, g2: nat, g3: nat, g4: nat)
    returns (t0: u128, t1: u128, t2: u128, t3: u128, t4: u128)
    requires f0 < 4 * X51 && f1 < 4 * X51 && f2 < 4 * X51 && f3 < 4 * X51 && f4 < 4 * X51
    requires g0 < 4 * X51 && g1 < 4 * X51 && g2 < 4 * X51 && g3 < 4 * X51 && g4 < 4 * X51
    ensures t0 < 1232 * X51 * X51 && t1 < 1232 * X51 * X51 && t2 < 1232 * X51 * X51
    ensures t3 < 1232 * X51 * X51 && t4 < 80 * X51 * X51
    ensures Weigh(t0, t1, t2, t3, t4) % P == (Weigh(f0, f1, f2, f3, f4) * Weigh(g0, g1, g2, g3, g4)) % P
  {
    hide Weigh;
    var g1_19: u64, g2_19: u64, g3_19: u64, g4_19: u64 := g1 * 19, g2 * 19, g3 * 19, g4 * 19;
    ProductBounds(f0, f1, f2, f3, f4, g0, g1, g2, g3, g4);
    t0 := f0 * g0 + f1 * g4_19 + f2 * g3_19 + f3 * g2_19 + f4 * g1_19;
    t1 := f0 * g1 + f1 * g0 + f2 * g4_19 + f3 * g3_19 + f4 * g2_19;
    t2 := f0 * g2 + f1 * g1 + f2 * g0 + f3 * g4_19 + f4 * g3_19;
    t3 := f0 * g3 + f1 * g2 + f2 * g1 + f3 * g0 + f4 * g4_19;
    t4 := f0 * g4 + f1 * g3 + f2 * g2 + f3 * g1 + f4 * g0;
    Folded(f0, f1, f2, f3, f4, g0, g1, g2, g3, g4);
    CongShift(Weigh(f0, f1, f2, f3, f4) * Weigh(g0, g1, g2, g3, g4), Weigh(t0, t1, t2, t3, t4),
              Weigh(f1 * g4 + f2 * g3 + f3 * g2 + f4 * g1, f2 * g4 + f3 * g3 + f4 * g2, f3 * g4 + f4 * g3, f4 * g4, 0));
  }

  method FeMul(h: array<u64>, f: array<u64>, g: array<u64>)
    requires h.Length == f.Length == g.Length == 5
    requires Loose(f[..]) && Loose(g[..])
    modifies h
    ensures Tight(h[..]) && Elem(h[..]) == FMul(old(Elem(f[..])), old(Elem(g[..])))
  {
    hide Weigh;
    ghost var vf, vg := Val(f[..]), Val(g[..]);
    var t0, t1, t2, t3, t4 := Columns(f[0], f[1], f[2], f[3], f[4], g[0], g[1], g[2], g[3], g[4]);
    FMulResidues(vf, vg);
    Carry(h, t0, t1, t2, t3, t4);
  }

  lemma RowBounds(x: nat, g0: nat, g1: nat, g2: nat, g3: nat, g4: nat)
    requires x < 4 * X51
    requires g0 < 4 * X51 && g1 < 4 * X51 && g2 < 4 * X51 && g3 < 4 * X51 && g4 < 4 * X51
    ensures 0 <= x * g0 < 16 * X51 * X51 && 0 <= x * g1 < 16 * X51 * X51 && 0 <= x * g2 < 16 * X51 * X51
    ensures 0 <= x * g3 < 16 * X51 * X51 && 0 <= x * g4 < 16 * X51 * X51
    ensures 0 <= x * (g1 * 19) < 304 * X51 * X51 && 0 <= x * (g2 * 19) < 304 * X51 * X51
    ensures 0 <= x * (g3 * 19) < 304 * X51 * X51 && 0 <= x * (g4 * 19) < 304 * X51 * X51
  {
    MulBound(x, g0, 4 * X51, 4 * X51);
    MulBound(x, g1, 4 * X51, 4 * X51);
    MulBound(x, g2, 4 * X51, 4 * X51);
    MulBound(x, g3, 4 * X51, 4 * X51);
    MulBound(x, g4, 4 * X51, 4 * X51);
    MulBound(x, g1 * 19, 4 * X51, 76 * X51);
    MulBound(x, g2 * 19, 4 * X51, 76 * X51);
    MulBound(x, g3 * 19, 4 * X51, 76 * X51);
    MulBound(x, g4 * 19, 4 * X51, 76 * X51);
  }

  lemma ProductBounds(f0: nat, f1: nat, f2: nat, f3: nat, f4: nat, g0: nat, g1: nat, g2: nat, g3: nat, g4: nat)
    requires f0 < 4 * X51 && f1 < 4 * X51 && f2 < 4 * X51 && f3 < 4 * X51 && f4 < 4 * X51
    requires g0 < 4 * X51 && g1 < 4 * X51 && g2 < 4 * X51 && g3 < 4 * X51 && g4 < 4 * X51
    ensures 0 <= f0 * g0 + f1 * (g4 * 19) + f2 * (g3 * 19) + f3 * (g2 * 19) + f4 * (g1 * 19) < 1232 * X51 * X51
    ensures 0 <= f0 * g1 + f1 * g0 + f2 * (g4 * 19) + f3 * (g3 * 19) + f4 * (g2 * 19) < 1232 * X51 * X51
    ensures 0 <= f0 * g2 + f1 * g1 + f2 * g0 + f3 * (g4 * 19) + f4 * (g3 * 19) < 1232 * X51 * X51
    ensures 0 <= f0 * g3 + f1 * g2 + f2 * g1 + f3 * g0 + f4 * (g4 * 19) < 1232 * X51 * X51
    ensures 0 <= f0 * g4 + f1 * g3 + f2 * g2 + f3 * g1 + f4 * g0 < 80 * X51 * X51
  {
    RowBounds(f0, g0, g1, g2, g3, g4);
    RowBounds(f1, g0, g1, g2, g3, g4);
    RowBounds(f2, g0, g1, g2, g3, g4);
    RowBounds(f3, g0, g1, g2, g3, g4);
    RowBounds(f4, g0, g1, g2, g3, g4);
  }

  /** Multiplies by (486662 - 2) / 4; the name that the C function has is one too high. */
  method FeMul121666(h: array<u64>, f: array<u64>)
    requires h.Length == f.Length == 5
    requires Loose(f[..])
    modifies h
    ensures Tight(h[..]) && Elem(h[..]) == FMul(121665, old(Elem(f[..])))
  {
    ghost var vf := Val(f[..]);
    var f0: u128, f1: u128, f2: u128, f3: u128, f4: u128 := f[0], f[1], f[2], f[3], f[4];
    var t0, t1, t2, t3, t4 := f0 * 121665, f1 * 121665, f2 * 121665, f3 * 121665, f4 * 121665;
    assert Weigh(t0, t1, t2, t3, t4) == 121665 * vf;
    FMulResidues(121665, vf);
    Carry(h, t0, t1, t2, t3, t4);
  }

  // ---- Inversion ------------------------------------------------------------------------

  function FPow(z: int, n: nat): (r: nat)
    ensures r < P
    decreases n, z
  {
    if n == 0 then 1 else FMul(z, FPow(z, n - 1))
  }

  lemma FMulAssoc(a: int, b: int, c: int)
    ensures FMul(FMul(a, b), c) == FMul(a, FMul(b, c)) == (a * b * c) % P
  {
    FMulResidues(a * b, c);
    FMulResidues(FMul(a, b), c);
    FMulResidues(a, b * c);
    FMulResidues(a, FMul(b, c));
    assert FMul(a, b) % P == FMul(a, b) && FMul(b, c) % P == FMul(b, c);
    assert a * (b * c) == a * b * c;
  }

  lemma FMulOne(x: nat)
    requires x < P
    ensures FMul(1, x) == x && FMul(x, 1) == x
  {
  }

  lemma {:induction false} FPowAdd(z: int, m: nat, n: nat)
    ensures FMul(FPow(z, m), FPow(z, n)) == FPow(z, m + n)
  {
    hide FMul;
    if m == 0 {
      FMulOne(FPow(z, n));
    } else {
      FPowAdd(z, m - 1, n);
      FMulAssoc(z, FPow(z, m - 1), FPow(z, n));
    }
  }

  lemma FPowOne(z: int)
    requires 0 <= z < P
    ensures FPow(z, 1) == z
  {
    assert FPow(z, 0) == 1;
  }

  /** The vector holds a power of z. */
  ghost predicate IsPower(t: array<u64>, z: nat, e: nat)
    reads t
  {
    t.Length == 5 && Tight(t[..]) && Elem(t[..]) == FPow(z, e)
  }

  method MulPowers(h: array<u64>, f: array<u64>, g: array<u64>, ghost z: nat, ghost a: nat, ghost b: nat)
    requires h.Length == 5 && IsPower(f, z, a) && IsPower(g, z, b)
    modifies h
    ensures IsPower(h, z, a + b)
  {
    FeMul(h, f, g);
    FPowAdd(z, a, b);
  }

  lemma Squared(e: nat, i: nat)
    ensures e * Pow2(i) + e * Pow2(i) == e * Pow2(i + 1)
  {
    var m := Pow2(i);
    assert e * m + e * m == e * (2 * m);
  }

  /** The squaring loop, run n times. */
  method SquareTimes(t: array<u64>, n: nat, ghost z: nat, ghost e: nat)
    requires IsPower(t, z, e)
    modifies t
    ensures IsPower(t, z, e * Pow2(n))
  {
    for i := 0 to n
      invariant IsPower(t, z, e * Pow2(i))
    {
      MulPowers(t, t, t, z, e * Pow2(i), e * Pow2(i));
      Squared(e, i);
    }
  }

  ghost function Ones(n: nat): nat { Pow2(n) - 1 }

  lemma OnesProduct(a: int, b: int)
    ensures (a - 1 + (a - 1)) * b + (2 * b - 1) == a * (2 * b) - 1
  {
  }

  lemma OnesShifted(n: nat, m: nat)
    requires m > 0
    ensures (Ones(n) + Ones(n)) * Pow2(m - 1) + Ones(m) == Ones(n + m)
  {
    Pow2Add(n, m);
    OnesProduct(Pow2(n), Pow2(m - 1));
  }

  lemma TwoTo50()
    ensures Pow2(50) == 0x4_0000_0000_0000
  {
    assert Pow2(10) == 1024;
    Pow2Add(40, 10);
    assert Pow2(40) == Pow2(20) * Pow2(20) by { Pow2Add(20, 20); }
    assert Pow2(20) == Pow2(10) * Pow2(10) by { Pow2Add(10, 10); }
  }

  lemma TwoTo200()
    ensures Pow2(200) == 0x100_00000000_00000000_00000000_00000000_00000000_00000000
  {
    TwoTo50();
    Pow2Add(50, 50);
    Pow2Add(100, 100);
  }

  lemma InverseExponent()
    ensures Ones(250) * Pow2(5) + 11 == P - 2
  {
    TwoTo50();
    TwoTo200();
    Pow2Add(200, 50);
  }

  /** From z^(2^n - 1) in `s` and z^(2^m - 1) in `g`: z^(2^(n + m) - 1), by m squarings and one product. */
  method ExtendOnes(h: array<u64>, t: array<u64>, s: array<u64>, g: array<u64>, ghost z: nat, ghost n: nat, m: nat)
    requires h.Length == 5 && t.Length == 5 && t != g && m > 0
    requires IsPower(s, z, Ones(n)) && IsPower(g, z, Ones(m))
    modifies h, t
    ensures IsPower(h, z, Ones(n + m))
  {
    MulPowers(t, s, s, z, Ones(n), Ones(n));
    SquareTimes(t, m - 1, z, Ones(n) + Ones(n));
    MulPowers(h, t, g, z, (Ones(n) + Ones(n)) * Pow2(m - 1), Ones(m));
    OnesShifted(n, m);
  }

  /** The first seven products of the inversion: z^11 and z^(2^5 - 1). */
  method SmallPowers(t0: array<u64>, t1: array<u64>, t2: array<u64>, z: array<u64>, ghost v: nat)
    requires t0.Length == t1.Length == t2.Length == 5
    requires t0 != t1 && t0 != t2 && t1 != t2 && z != t0 && z != t1 && z != t2
    requires IsPower(z, v, 1)
    modifies t0, t1, t2
    ensures IsPower(t0, v, 11) && IsPower(t1, v, Ones(5))
  {
    MulPowers(t0, z, z, v, 1, 1);
    MulPowers(t1, t0, t0, v, 2, 2);
    MulPowers(t1, t1, t1, v, 4, 4);
    MulPowers(t1, z, t1, v, 1, 8);
    MulPowers(t0, t0, t1, v, 2, 9);
    MulPowers(t2, t0, t0, v, 11, 11);
    MulPowers(t1, t1, t2, v, 9, 22);
  }

  /** The middle of the inversion: from z^(2^5 - 1) to z^(2^40 - 1) in t2, with z^(2^10 - 1) kept in t1. */
  method MiddlePowers(t1: array<u64>, t2: array<u64>, t3: array<u64>, ghost v: nat)
    requires t1.Length == t2.Length == t3.Length == 5
    requires t1 != t2 && t1 != t3 && t2 != t3
    requires IsPower(t1, v, Ones(5))
    modifies t1, t2, t3
    ensures IsPower(t1, v, Ones(10)) && IsPower(t2, v, Ones(40))
  {
    hide Ones, Pow2, IsPower;
    ExtendOnes(t1, t2, t1, t1, v, 5, 5);
    ExtendOnes(t2, t2, t1, t1, v, 10, 10);
    ExtendOnes(t2, t3, t2, t2, v, 20, 20);
  }

  /** On to z^(2^250 - 1). */
  method LargePowers(t1: array<u64>, t2: array<u64>, t3: array<u64>, ghost v: nat)
    requires t1.Length == t2.Length == t3.Length == 5
    requires t1 != t2 && t1 != t3 && t2 != t3
    requires IsPower(t1, v, Ones(10)) && IsPower(t2, v, Ones(40))
    modifies t1, t2, t3
    ensures IsPower(t1, v, Ones(250))
  {
    hide Ones, Pow2, IsPower;
    ExtendOnes(t1, t2, t2, t1, v, 40, 10);
    ExtendOnes(t2, t2, t1, t1, v, 50, 50);
    ExtendOnes(t2, t3, t2, t2, v, 100, 100);
    ExtendOnes(t1, t2, t2, t1, v, 200, 50);
  }

  method FeInvert(out: array<u64>, z: array<u64>)
    requires out.Length == z.Length == 5 && Tight(z[..])
    modifies out
    ensures Tight(out[..]) && Elem(out[..]) == FPow(old(Elem(z[..])), P - 2)
  {
    ghost var v := Elem(z[..]);
    FPowOne(v);
    var t0, t1, t2, t3 := new u64[5], new u64[5], new u64[5], new u64[5];
    SmallPowers(t0, t1, t2, z, v);
    MiddlePowers(t1, t2, t3, v);
    LargePowers(t1, t2, t3, v);
    SquareTimes(t1, 5, v, Ones(250));
    InverseExponent();
    MulPowers(out, t1, t0, v, Ones(250) * Pow2(5), 11);
  }

  // ---- Byte strings ---------------------------------------------------------------------

  const P255: nat := 0x80000000_00000000_00000000_00000000_00000000_00000000_00000000_00000000

  /** `acc | b[0] << w | ... | last << (w + 8 * |b|)`, where 2^w is m. */
  method Load(acc: nat, w: nat, ghost m: nat, b: seq<byte>, ghost n: nat, last: nat) returns (t: nat)
    requires m == Pow2(w) && acc < m && n == Pow2(8 * |b|) && last < 0x100
    ensures t == acc + m * (LE(b) + n * last)
  {
    var bytes: seq<nat> := b + [last];
    t := OrBytes(acc, w, bytes);
    OrBytesIsSum(acc, w, bytes);
    LEAppend(b, [last]);
  }

  /** The string from i on, cut around the byte at j. */
  lemma CutAt(b: seq<nat>, i: nat, j: nat, n: nat)
    requires i <= j < |b| && n == Pow2(8 * (j - i))
    ensures LE(b[i..]) == LE(b[i..j]) + n * (b[j] + 0x100 * LE(b[j + 1..]))
  {
    var t := b[j..];
    assert b[i..] == b[i..j] + t;
    LEAppend(b[i..j], t);
    assert LE(t) == b[j] + 0x100 * LE(b[j + 1..]) by { assert t[1..] == b[j + 1..]; }
  }

  lemma BytePowers()
    ensures Pow2(40) == 0x100_0000_0000 && Pow2(48) == 0x1_0000_0000_0000
  {
    assert Pow2(8) == 0x100;
    Pow2Next8(8);
    Pow2Next8(16);
    Pow2Next8(24);
    Pow2Next8(32);
    Pow2Next8(40);
  }

  lemma Assemble(w0: int, b0: int, l0: int, h0: int, w1: int, b1: int, l1: int, h1: int, w2: int, b2: int, l2: int,
                 h2: int,
                 w3: int, b3: int, l3: int, h3: int, w4: int, b4: int, l4: int, h4: int)
    requires b0 == l0 + 8 * h0 && b1 == l1 + 64 * h1 && b2 == l2 + 2 * h2 && b3 == l3 + 16 * h3 && b4 == l4 + 128 * h4
    ensures
      w0 + 0x1_0000_0000_0000 * (b0 + 0x100 * (w1 + 0x100_0000_0000 * (b1 + 0x100 * (
        w2 + 0x1_0000_0000_0000 * (b2 + 0x100 * (w3 + 0x100_0000_0000 * (b3 + 0x100 * (
          w4 + 0x100_0000_0000 * b4))))))))
      == Weigh(w0 + 0x1_0000_0000_0000 * l0,
               h0 + 0x20 * (w1 + 0x100_0000_0000 * l1),
               h1 + 4 * (w2 + 0x1_0000_0000_0000 * l2),
               h2 + 0x80 * (w3 + 0x100_0000_0000 * l3),
               h3 + 0x10 * (w4 + 0x100_0000_0000 * l4))
         + P255 * h4
  {
  }

  lemma CutFiveTimes(b: seq<nat>)
    requires |b| == 32
    ensures LE(b) ==
            LE(b[0..6]) + 0x1_0000_0000_0000 * (b[6] + 0x100 * (
              LE(b[7..12]) + 0x100_0000_0000 * (b[12] + 0x100 * (
                LE(b[13..19]) + 0x1_0000_0000_0000 * (b[19] + 0x100 * (
                  LE(b[20..25]) + 0x100_0000_0000 * (b[25] + 0x100 * (
                    LE(b[26..31]) + 0x100_0000_0000 * b[31]))))))))
  {
    BytePowers();
    assert LE(b[32..]) == 0;
    hide LE;
    CutAt(b, 0, 6, 0x1_0000_0000_0000);
    CutAt(b, 7, 12, 0x100_0000_0000);
    CutAt(b, 13, 19, 0x1_0000_0000_0000);
    CutAt(b, 20, 25, 0x100_0000_0000);
    CutAt(b, 26, 31, 0x100_0000_0000);
    assert b[0..] == b;
  }

  /** Thirty-two bytes as five limbs: each byte on a boundary is cut in two. */
  lemma Regrouped(b: seq<nat>, l0: nat, h0: nat, l1: nat, h1: nat, l2: nat, h2: nat, l3: nat, h3: nat, l4: nat, h4: nat)
    requires |b| == 32
    requires b[6] == l0 + 8 * h0 && b[12] == l1 + 64 * h1 && b[19] == l2 + 2 * h2
    requires b[25] == l3 + 16 * h3 && b[31] == l4 + 128 * h4
    ensures LE(b) == Weigh(LE(b[0..6]) + 0x1_0000_0000_0000 * l0,
                           h0 + 0x20 * (LE(b[7..12]) + 0x100_0000_0000 * l1),
                           h1 + 4 * (LE(b[13..19]) + 0x1_0000_0000_0000 * l2),
                           h2 + 0x80 * (LE(b[20..25]) + 0x100_0000_0000 * l3),
                           h3 + 0x10 * (LE(b[26..31]) + 0x100_0000_0000 * l4)) + P255 * h4
  {
    hide LE, Weigh;
    CutFiveTimes(b);
    Assemble(LE(b[0..6]), b[6], l0, h0, LE(b[7..12]), b[12], l1, h1, LE(b[13..19]), b[19], l2, h2,
             LE(b[20..25]), b[25], l3, h3, LE(b[26..31]), b[31], l4, h4);
  }

  lemma OnePower()
    ensures Pow2(0) == 1 && Pow2(5) == 0x20 && Pow2(2) == 4 && Pow2(7) == 0x80 && Pow2(4) == 0x10
  {
  }

  method LoadLimbs(b: seq<nat>) returns (t: seq<u64>)
    requires |b| == 32 && forall i :: 0 <= i < 32 ==> b[i] < 0x100
    ensures |t| == 5 && forall i :: 0 <= i < 5 ==> t[i] < X51
    ensures t[0] == LE(b[0..6]) + 0x1_0000_0000_0000 * (b[6] % 8)
    ensures t[1] == b[6] / 8 + 0x20 * (LE(b[7..12]) + 0x100_0000_0000 * (b[12] % 64))
    ensures t[2] == b[12] / 64 + 4 * (LE(b[13..19]) + 0x1_0000_0000_0000 * (b[19] % 2))
    ensures t[3] == b[19] / 2 + 0x80 * (LE(b[20..25]) + 0x100_0000_0000 * (b[25] % 16))
    ensures t[4] == b[25] / 16 + 0x10 * (LE(b[26..31]) + 0x100_0000_0000 * (b[31] % 128))
  {
    hide LE, Pow2;
    BytePowers();
    OnePower();
    var t0 := Load(0, 0, 1, b[0..6], 0x1_0000_0000_0000, b[6] % 8);
    ShortBound(b[0..6]);
    var t1 := Load(b[6] / 8, 5, 0x20, b[7..12], 0x100_0000_0000, b[12] % 64);
    ShortBound(b[7..12]);
    var t2 := Load(b[12] / 64, 2, 4, b[13..19], 0x1_0000_0000_0000, b[19] % 2);
    ShortBound(b[13..19]);
    var t3 := Load(b[19] / 2, 7, 0x80, b[20..25], 0x100_0000_0000, b[25] % 16);
    ShortBound(b[20..25]);
    var t4 := Load(b[25] / 16, 4, 0x10, b[26..31], 0x100_0000_0000, b[31] % 128);
    ShortBound(b[26..31]);
    t := [t0, t1, t2, t3, t4];
  }

  lemma ShortBound(s: seq<byte>)
    requires |s| == 5 || |s| == 6
    ensures |s| == 5 ==> LE(s) < 0x100_0000_0000
    ensures |s| == 6 ==> LE(s) < 0x1_0000_0000_0000
  {
    LEBound(s);
    BytePowers();
  }

  method FeFromBytes(h: array<u64>, s: array<byte>)
    requires h.Length == 5 && s.Length == 32
    modifies h
    ensures Tight(h[..]) && Val(h[..]) == old(LE(s[..])) % P255
  {
    hide LE;
    var b: seq<nat> := s[..];
    var t := LoadLimbs(b);
    h[0], h[1], h[2], h[3], h[4] := t[0], t[1], t[2], t[3], t[4];
    assert h[..] == t;
    Regrouped(b, b[6] % 8, b[6] / 8, b[12] % 64, b[12] / 64, b[19] % 2, b[19] / 2, b[25] % 16, b[25] / 16, b[31] % 128, b[31] / 128);
    ModUnique(LE(b), P255, b[31] / 128, Val(t));
  }

  predicate Limbs51(a: int, b: int, c: int, d: int, e: int) {
    0 <= a < X51 && 0 <= b < X51 && 0 <= c < X51 && 0 <= d < X51 && 0 <= e < X51
  }

  lemma WeighBound(a: int, b: int, c: int, d: int, e: int)
    requires Limbs51(a, b, c, d, e)
    ensures 0 <= Weigh(a, b, c, d, e) < P255
  {
  }

  /** A full carry of five limbs; c4 is what leaves at the top. */
  lemma FullCarry(a0: int, a1: int, a2: int, a3: int, a4: int, c0: int, c1: int, c2: int, c3: int, c4: int,
                  r0: int, r1: int, r2: int, r3: int, r4: int)
    requires a0 == X51 * c0 + r0 && a1 + c0 == X51 * c1 + r1 && a2 + c1 == X51 * c2 + r2
    requires a3 + c2 == X51 * c3 + r3 && a4 + c3 == X51 * c4 + r4
    requires Limbs51(r0, r1, r2, r3, r4)
    ensures Weigh(a0, a1, a2, a3, a4) == Weigh(r0, r1, r2, r3, r4) + P255 * c4
    ensures 0 <= Weigh(r0, r1, r2, r3, r4) < P255
  {
    WeighBound(r0, r1, r2, r3, r4);
  }

  lemma TwoCarries(v: nat, q: nat, r: nat, d: int, w: nat)
    requires v < 2 * P
    requires v + 19 == r + P255 * q && r < P255
    requires v + 19 * q == w + P255 * d && w < P255
    ensures w == v % P
  {
    assert q <= 1;
    if q == 0 {
      assert d == 0;
    } else {
      assert d == 1;
      ModUnique(v, P, 1, w);
    }
  }

  /** The quotient estimate `q` first, then the carry that drops it: one conditional subtraction of P. */
  method Canonical(h: seq<u64>) returns (t: seq<u64>)
    requires Tight(h)
    ensures |t| == 5 && (forall i :: 0 <= i < 5 ==> t[i] < X51) && Val(t) == Val(h) % P
  {
    var q := Quotient(h[0] + 19, h[1], h[2], h[3], h[4]);
    ghost var r := Val(h) + 19 - P255 * q;
    ghost var d4;
    t, d4 := CarryAll(h, q);
    TwoCarries(Val(h), q, r, d4, Val(t));
  }

  /** Adds 19 q and carries; what leaves at the top is dropped. */
  method CarryAll(h: seq<u64>, q: u64) returns (t: seq<u64>, ghost d4: int)
    requires Tight(h) && q <= 2
    ensures |t| == 5 && (forall i :: 0 <= i < 5 ==> t[i] < X51)
    ensures Val(h) + 19 * q == Val(t) + P255 * d4 && 0 <= Val(t) < P255
  {
    var t0: u64 := h[0] + 19 * q;
    var d0: u64, v0: u64 := t0 / X51, t0 % X51;
    var t1: u64 := h[1] + d0;
    var d1: u64, v1: u64 := t1 / X51, t1 % X51;
    var t2: u64 := h[2] + d1;
    var d2: u64, v2: u64 := t2 / X51, t2 % X51;
    var t3: u64 := h[3] + d2;
    var d3: u64, v3: u64 := t3 / X51, t3 % X51;
    var t4: u64 := h[4] + d3;
    d4 := t4 / X51;
    var v4: u64 := t4 % X51;
    FullCarry(t0, h[1], h[2], h[3], h[4], d0, d1, d2, d3, d4, v0, v1, v2, v3, v4);
    t := [v0, v1, v2, v3, v4];
  }

  method Quotient(a0: u64, a1: u64, a2: u64, a3: u64, a4: u64) returns (q: u64)
    requires a0 < 0x10_0000_0000_0000 && a1 < 0x10_0000_0000_0000 && a2 < 0x10_0000_0000_0000
    requires a3 < 0x10_0000_0000_0000 && a4 < 0x10_0000_0000_0000
    ensures q == Weigh(a0, a1, a2, a3, a4) / P255 && q <= 2
  {
    var c: u64 := a0 / X51;
    ghost var c0: int := c;
    var s: u64 := a1 + c;
    c := s / X51;
    ghost var c1: int := c;
    s := a2 + c;
    c := s / X51;
    ghost var c2: int := c;
    s := a3 + c;
    c := s / X51;
    ghost var c3: int := c;
    s := a4 + c;
    q := s / X51;
    FullCarry(a0, a1, a2, a3, a4, c0, c1, c2, c3, q, a0 % X51, (a1 + c0) % X51, (a2 + c1) % X51, (a3 + c2) % X51, (a4 + c3) % X51);
    ModUnique(Weigh(a0, a1, a2, a3, a4), P255, q, Weigh(a0 % X51, (a1 + c0) % X51, (a2 + c1) % X51, (a3 + c2) % X51, (a4 + c3) % X51));
  }

  /** A byte that ends one limb and begins the next: `(uint8_t)(a | (x << k))`. */
  function Straddle(a: nat, x: nat, k: nat): byte {
    Or(a, x * Pow2(k)) % 0x100
  }

  lemma StraddleValue(a: nat, x: nat, k: nat, m: nat, n: nat)
    requires m == Pow2(k) && m * n == 0x100 && a < m
    ensures Straddle(a, x, k) == a + m * (x % n)
  {
    OrDisjoint(a, x, k);
    CutField(a, x, m, n);
  }

  function PackLimbs(t: seq<nat>): (b: seq<byte>)
    requires |t| == 5
    ensures |b| == 32
  {
    ShiftBytes(t[0], 6) + [Straddle(t[0] / 0x1_0000_0000_0000, t[1], 3)]
    + ShiftBytes(t[1] / 0x20, 5) + [Straddle(t[1] / 0x2000_0000_0000, t[2], 6)]
    + ShiftBytes(t[2] / 4, 6) + [Straddle(t[2] / 0x4_0000_0000_0000, t[3], 1)]
    + ShiftBytes(t[3] / 0x80, 5) + [Straddle(t[3] / 0x8000_0000_0000, t[4], 4)]
    + ShiftBytes(t[4] / 0x10, 6)
  }

  /** A number as three fields, the lower two of widths m and n. */
  lemma ThreeFields(t: nat, m: nat, n: nat, mn: nat)
    requires m > 0 && n > 0 && mn == n * m
    ensures mn > 0 && t == t % m + m * ((t / m) % n + n * (t / mn))
  {
    DivTwice(t, m, n);
    var q := t / m;
    assert q == q % n + n * (q / n);
    assert t == t % m + m * q;
  }

  lemma LastBytes(t: nat)
    requires t < X51
    ensures var b := ShiftBytes(t / 0x10, 6); b[..5] == ShiftBytes(t / 0x10, 5) && b[5] == t / 0x1000_0000_0000
  {
    BytePowers();
    hide Pow2;
    var b, c := ShiftBytes(t / 0x10, 6), ShiftBytes(t / 0x10, 5);
    assert b[..5] == c;
  }

  lemma PackedParts(t: seq<nat>)
    requires |t| == 5 && t[4] < X51
    ensures var b := PackLimbs(t);
      && b[0..6] == ShiftBytes(t[0], 6) && b[6] == Straddle(t[0] / 0x1_0000_0000_0000, t[1], 3)
      && b[7..12] == ShiftBytes(t[1] / 0x20, 5) && b[12] == Straddle(t[1] / 0x2000_0000_0000, t[2], 6)
      && b[13..19] == ShiftBytes(t[2] / 4, 6) && b[19] == Straddle(t[2] / 0x4_0000_0000_0000, t[3], 1)
      && b[20..25] == ShiftBytes(t[3] / 0x80, 5) && b[25] == Straddle(t[3] / 0x8000_0000_0000, t[4], 4)
      && b[26..31] == ShiftBytes(t[4] / 0x10, 5) && b[31] == t[4] / 0x1000_0000_0000
  {
    hide ShiftBytes, Straddle;
    LastBytes(t[4]);
    var b := PackLimbs(t);
    assert b[26..] == ShiftBytes(t[4] / 0x10, 6);
    assert b[26..31] == b[26..][..5] && b[31] == b[26..][5];
  }

  lemma PackLimbsValue(t: seq<u64>)
    requires |t| == 5 && forall i :: 0 <= i < 5 ==> t[i] < X51
    ensures LE(PackLimbs(t)) == Val(t)
  {
    hide LE, PackLimbs, ShiftBytes, Straddle, Pow2;
    var b: seq<nat> := PackLimbs(t);
    BytePowers();
    PackedParts(t);
    assert LE(b[0..6]) + 0x1_0000_0000_0000 * (t[0] / 0x1_0000_0000_0000) == t[0] by {
      ShiftBytesValue(t[0], 6);
    }
    assert t[1] % 32 + 0x20 * (LE(b[7..12]) + 0x100_0000_0000 * (t[1] / 0x2000_0000_0000)) == t[1] by {
      ShiftBytesValue(t[1] / 0x20, 5);
      ThreeFields(t[1], 0x20, 0x100_0000_0000, 0x2000_0000_0000);
    }
    assert t[2] % 4 + 4 * (LE(b[13..19]) + 0x1_0000_0000_0000 * (t[2] / 0x4_0000_0000_0000)) == t[2] by {
      ShiftBytesValue(t[2] / 4, 6);
      ThreeFields(t[2], 4, 0x1_0000_0000_0000, 0x4_0000_0000_0000);
    }
    assert t[3] % 128 + 0x80 * (LE(b[20..25]) + 0x100_0000_0000 * (t[3] / 0x8000_0000_0000)) == t[3] by {
      ShiftBytesValue(t[3] / 0x80, 5);
      ThreeFields(t[3], 0x80, 0x100_0000_0000, 0x8000_0000_0000);
    }
    assert t[4] % 16 + 0x10 * (LE(b[26..31]) + 0x100_0000_0000 * (t[4] / 0x1000_0000_0000)) == t[4] by {
      ShiftBytesValue(t[4] / 0x10, 5);
      ThreeFields(t[4], 0x10, 0x100_0000_0000, 0x1000_0000_0000);
    }
    Straddles(t);
    Regrouped(b, t[0] / 0x1_0000_0000_0000, t[1] % 32, t[1] / 0x2000_0000_0000, t[2] % 4, t[2] / 0x4_0000_0000_0000, t[3] % 128,
              t[3] / 0x8000_0000_0000, t[4] % 16, t[4] / 0x1000_0000_0000, 0);
  }

  lemma Straddles(t: seq<nat>)
    requires |t| == 5 && forall i :: 0 <= i < 5 ==> t[i] < X51
    ensures Straddle(t[0] / 0x1_0000_0000_0000, t[1], 3) == t[0] / 0x1_0000_0000_0000 + 8 * (t[1] % 32)
    ensures Straddle(t[1] / 0x2000_0000_0000, t[2], 6) == t[1] / 0x2000_0000_0000 + 64 * (t[2] % 4)
    ensures Straddle(t[2] / 0x4_0000_0000_0000, t[3], 1) == t[2] / 0x4_0000_0000_0000 + 2 * (t[3] % 128)
    ensures Straddle(t[3] / 0x8000_0000_0000, t[4], 4) == t[3] / 0x8000_0000_0000 + 16 * (t[4] % 16)
  {
    StraddleValue(t[0] / 0x1_0000_0000_0000, t[1], 3, 8, 32);
    StraddleValue(t[1] / 0x2000_0000_0000, t[2], 6, 64, 4);
    StraddleValue(t[2] / 0x4_0000_0000_0000, t[3], 1, 2, 128);
    StraddleValue(t[3] / 0x8000_0000_0000, t[4], 4, 16, 16);
  }

  method FeToBytes(s: array<byte>, h: array<u64>)
    requires s.Length == 32 && h.Length == 5 && Tight(h[..])
    modifies s
    ensures LE(s[..]) == old(Elem(h[..]))
  {
    var t := Canonical(h[..]);
    var b := PackLimbs(t);
    PackLimbsValue(t);
    forall i | 0 <= i < 32 {
      s[i] := b[i];
    }
    assert s[..] == b;
  }
}
