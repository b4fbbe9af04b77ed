/** The streaming Poly1305 on five 26-bit limbs, against the one-shot definition on integers
    modulo 2^130 - 5 (section 2.5 of RFC 8439). */
module Poly1305 {
  import opened Words

  const P130: nat := 0x3_ffffffff_ffffffff_ffffffff_fffffffb
  const X26: nat := 0x400_0000
  const T128: nat := 0x1_00000000_00000000_00000000_00000000
  const CLAMP: nat := 0x0ffffffc_0ffffffc_0ffffffc_0fffffff

  // ---- The authenticator as RFC 8439 defines it -------------------------------------------

  /** Adds one block of at most sixteen bytes, with a 1 byte on top, and multiplies by r. */
  function Absorb(r: nat, acc: nat, block: seq<byte>): nat {
    ((acc + LE(block + [1])) * r) % P130
  }

  function Eval(r: nat, msg: seq<byte>): nat
    decreases |msg|
  {
    if msg == [] then 0
    else
      var k := (|msg| - 1) / 16 * 16;
      Absorb(r, Eval(r, msg[..k]), msg[k..])
  }

  function KeyR(key: seq<byte>): nat
    requires |key| == 32
  {
    And(LE(key[..16]), CLAMP)
  }

  function Mac(key: seq<byte>, msg: seq<byte>): (r: nat)
    requires |key| == 32
    ensures r < T128
  {
    (Eval(KeyR(key), msg) + LE(key[16..])) % T128
  }

  // ---- The authenticator is a polynomial ------------------------------------------------------

  function Times(a: nat, b: nat): nat { a * b }

  function Power(r: nat, n: nat): nat { if n == 0 then 1 else r * Power(r, n - 1) }

  /** Block i of a message, of sixteen bytes or what is left, with a 1 byte on top. */
  function Coefficient(msg: seq<byte>, i: nat): nat
    requires 16 * i < |msg|
  {
    LE((if 16 * i + 16 <= |msg| then msg[16 * i..16 * i + 16] else msg[16 * i..]) + [1])
  }

  /** The first n blocks, block i times r to the power m - i. */
  function Polynomial(msg: seq<byte>, r: nat, m: nat, n: nat): nat
    requires n <= m && 16 * n < |msg| + 16
  {
    if n == 0 then 0 else Polynomial(msg, r, m, n - 1) + Coefficient(msg, n - 1) * Power(r, m - (n - 1))
  }

  lemma {:induction false} PolynomialRises(msg: seq<byte>, more: seq<byte>, r: nat, m: nat, n: nat)
    requires n <= m && 16 * n <= |msg|
    ensures Polynomial(msg + more, r, m + 1, n) == Times(r, Polynomial(msg, r, m, n))
  {
    hide Coefficient;
    if n > 0 {
      PolynomialRises(msg, more, r, m, n - 1);
      SameCoefficient(msg, more, n - 1);
      var c, p := Coefficient(msg, n - 1), Power(r, m - (n - 1));
      Rearranged(r, Polynomial(msg, r, m, n - 1), c, p);
    }
  }

  lemma Rearranged(r: nat, s: nat, c: nat, p: nat)
    ensures r * s + c * (r * p) == r * (s + c * p)
  {
  }

  lemma SameCoefficient(msg: seq<byte>, more: seq<byte>, i: nat)
    requires 16 * i + 16 <= |msg|
    ensures Coefficient(msg + more, i) == Coefficient(msg, i)
  {
    assert (msg + more)[16 * i..16 * i + 16] == msg[16 * i..16 * i + 16];
  }

  function Quotient(r: nat, acc: nat, block: seq<byte>): nat { (acc + LE(block + [1])) * r / P130 }

  lemma AbsorbSplit(r: nat, acc: nat, block: seq<byte>, q: nat)
    ensures Times(r, acc + P130 * q) + Times(LE(block + [1]), r) ==
      Absorb(r, acc, block) + P130 * (Times(q, r) + Quotient(r, acc, block))
  {
    hide LE;
    QuotientStep(acc, LE(block + [1]), q, r, (acc + LE(block + [1])) * r);
  }

  /** By what multiple the polynomial exceeds the accumulator. */
  lemma {:induction false} EvalQuotient(r: nat, msg: seq<byte>) returns (q: nat)
    ensures var n := (|msg| + 15) / 16; Polynomial(msg, r, n, n) == Eval(r, msg) + P130 * q && Eval(r, msg) < P130
    decreases |msg|
  {
    hide LE, Coefficient, Polynomial, Power, Absorb, Quotient, Times;
    if msg == [] {
      q := 0;
      NoTerms(r);
    } else {
      var n := (|msg| + 15) / 16;
      var front, block := msg[..16 * (n - 1)], msg[16 * (n - 1)..];
      assert (|msg| - 1) / 16 * 16 == 16 * (n - 1) && front + block == msg;
      var e := Eval(r, front);
      AbsorbBound(r, e, block);
      assert Eval(r, msg) == Absorb(r, e, block);
      hide Eval;
      var q' := EvalQuotient(r, front);
      PolynomialRises(front, block, r, n - 1, n - 1);
      LastCoefficient(msg, n);
      LastTerm(msg, r, n);
      AbsorbSplit(r, e, block, q');
      q := Times(q', r) + Quotient(r, e, block);
    }
  }

  lemma NoTerms(r: nat)
    ensures Polynomial([], r, 0, 0) == 0 && Eval(r, []) == 0
  {
  }

  lemma AbsorbBound(r: nat, acc: nat, block: seq<byte>)
    ensures Absorb(r, acc, block) < P130
  {
  }

  lemma QuotientStep(e: nat, c: nat, q: nat, r: nat, x: nat)
    requires x == (e + c) * r
    ensures r * (e + P130 * q) + c * r == x % P130 + P130 * (q * r + x / P130)
  {
    Distribute2(e + c, q, r);
    assert r * (e + P130 * q) + c * r == (e + c + P130 * q) * r;
    assert P130 * (q * r + x / P130) == P130 * (q * r) + P130 * (x / P130);
  }

  /** The authenticator evaluates at r the polynomial with the blocks for coefficients and no constant term. */
  lemma EvalIsPolynomial(r: nat, msg: seq<byte>)
    ensures var n := (|msg| + 15) / 16; Eval(r, msg) == Polynomial(msg, r, n, n) % P130
  {
    hide Eval, Polynomial;
    var q := EvalQuotient(r, msg);
    var n := (|msg| + 15) / 16;
    ModUnique(Polynomial(msg, r, n, n), P130, q, Eval(r, msg));
  }

  lemma LastCoefficient(msg: seq<byte>, n: nat)
    requires msg != [] && n == (|msg| + 15) / 16
    ensures Coefficient(msg, n - 1) == LE(msg[16 * (n - 1)..] + [1])
  {
    if 16 * n == |msg| {
      assert msg[16 * (n - 1)..16 * n] == msg[16 * (n - 1)..];
    }
  }

  lemma LastTerm(msg: seq<byte>, r: nat, n: nat)
    requires msg != [] && n == (|msg| + 15) / 16
    ensures Polynomial(msg, r, n, n) == Polynomial(msg, r, n, n - 1) + Times(Coefficient(msg, n - 1), r)
  {
    hide Coefficient;
    assert Power(r, 1) == r;
  }

  /** Section 2.5 of RFC 8439: which bits of the key are cleared. */
  function ClampByte(x: byte, i: nat): byte {
    if i in {3, 7, 11, 15} then x % 16 else if i in {4, 8, 12} then x - x % 4 else x
  }

  lemma {:induction false} AndBytes(a: seq<byte>, b: seq<byte>)
    requires |a| == |b|
    ensures And(LE(a), LE(b)) == LE(AndEach(a, b))
  {
    assert And(0, 0) == 0;
    hide And;
    if a != [] {
      AndBytes(a[1..], b[1..]);
      var x, y, e := LE(a[1..]), LE(b[1..]), AndEach(a, b);
      assert e[1..] == AndEach(a[1..], b[1..]) && e[0] == And(a[0], b[0]);
      assert Pow2(8) == 0x100;
      AndFields(a[0], x, b[0], y, 8);
      assert LE(a) == a[0] + x * 0x100 && LE(b) == b[0] + y * 0x100 && LE(e) == e[0] + And(x, y) * 0x100;
    }
  }

  function AndEach(a: seq<byte>, b: seq<byte>): (r: seq<byte>)
    requires |a| == |b|
    ensures |r| == |a|
  {
    seq(|a|, i requires 0 <= i < |a| => AndByte(a[i], b[i]))
  }

  function AndByte(x: byte, y: byte): byte {
    AndBelow(x, y);
    And(x, y)
  }

  function ClampBytes(): (r: seq<byte>)
    ensures |r| == 16
  {
    var first: seq<byte>, other: seq<byte> := [255, 255, 255, 15], [252, 255, 255, 15];
    first + other + other + other
  }

  lemma ClampIs()
    ensures LE(ClampBytes()) == CLAMP
  {
    var b := ClampBytes();
    assert b[..4] == [255, 255, 255, 15] && b[4..8] == [252, 255, 255, 15];
    assert b[8..12] == [252, 255, 255, 15] && b[12..] == [252, 255, 255, 15];
    hide LE, ClampBytes;
    SixteenBytes(b);
    FourBytesValue(255, 255, 255, 15);
    FourBytesValue(252, 255, 255, 15);
  }

  lemma FourBytesValue(w: byte, x: byte, y: byte, z: byte)
    ensures LE([w, x, y, z]) == w + 0x100 * x + 0x1_0000 * y + 0x100_0000 * z
  {
    LE4([w, x, y, z]);
  }

  lemma WholeByte(x: byte)
    ensures And(x, 255) == x
  {
    hide And;
    assert Pow2(8) == 256;
    hide Pow2;
    AndMask(x, 8);
  }

  lemma LowHalf(x: byte)
    ensures And(x, 15) == x % 16
  {
    hide And;
    assert Pow2(4) == 16;
    hide Pow2;
    AndMask(x, 4);
  }

  lemma NothingMasked(x: nat)
    ensures And(x, 0) == 0
  {
  }

  lemma SixBits()
    ensures Pow2(2) == 4 && Pow2(6) == 64
  {
  }

  lemma UpperSix(x: byte)
    ensures And(x, 252) == x - x % 4
  {
    hide And;
    var a, b := x % 4, x / 4;
    NothingMasked(a);
    SixBits();
    hide Pow2;
    assert x == a + b * 4 && b % 64 == b;
    AndFields(a, b, 0, 63, 2);
    AndMask(b, 6);
  }

  function ClampHalf(half: seq<byte>): (r: seq<byte>)
    requires |half| == 16
    ensures |r| == 16
  {
    seq(16, i requires 0 <= i < 16 => ClampByte(half[i], i))
  }

  /** The clamped half of the key, byte by byte. */
  lemma KeyRIs(key: seq<byte>)
    requires |key| == 32
    ensures KeyR(key) == LE(ClampHalf(key[..16]))
  {
    var half: seq<byte> := key[..16];
    hide LE, And, AndEach, AndByte, ClampByte, ClampBytes;
    ClampIs();
    AndBytes(half, ClampBytes());
    forall i | 0 <= i < 16 ensures AndEach(half, ClampBytes())[i] == ClampHalf(half)[i] {
      ClampedByte(half, i);
    }
    hide ClampHalf;
    assert AndEach(half, ClampBytes()) == ClampHalf(half);
  }

  lemma ClampedByte(half: seq<byte>, i: nat)
    requires |half| == 16 && i < 16
    ensures AndEach(half, ClampBytes())[i] == ClampByte(half[i], i)
  {
    hide And;
    WholeByte(half[i]);
    LowHalf(half[i]);
    UpperSix(half[i]);
    if i in {3, 7, 11, 15} {
      assert ClampBytes()[i] == 15;
    } else if i in {4, 8, 12} {
      assert ClampBytes()[i] == 252;
    } else {
      assert ClampBytes()[i] == 255;
    }
  }

  // ---- Limbs --------------------------------------------------------------------------------

  function Weigh26(a: int, b: int, c: int, d: int, e: int): int {
    a + X26 * b + (X26 * X26) * c + (X26 * X26 * X26) * d + (X26 * X26 * X26 * X26) * e
  }

  function Val26(h: seq<u32>): nat
    requires |h| == 5
  {
    Weigh26(h[0], h[1], h[2], h[3], h[4])
  }

  /** The bound after every block: only the second limb may exceed 26 bits, and by less than 64. */
  predicate Settled(h: seq<u32>) {
    |h| == 5 && h[0] < X26 && h[1] < X26 + 64 && h[2] < X26 && h[3] < X26 && h[4] < X26
  }

  predicate Clamped(r: seq<u32>) {
    |r| == 5 && forall i :: 0 <= i < 5 ==> r[i] < X26
  }

  lemma Cong130(a: int, b: int, k: int)
    requires a == b + P130 * k
    ensures a % P130 == b % P130
  {
    ModUnique(a, P130, b / P130 + k, b % P130);
  }

  lemma Distribute2(b: int, k: int, r: int)
    ensures (b + P130 * k) * r == b * r + P130 * (k * r)
  {
  }

  /** Schoolbook product with the limbs above the fifth folded down by 2^130 = P130 + 5. */
  lemma Folded26(f0: int, f1: int, f2: int, f3: int, f4: int, g0: int, g1: int, g2: int, g3: int, g4: int)
    ensures
      Weigh26(f0, f1, f2, f3, f4) * Weigh26(g0, g1, g2, g3, g4) ==
      Weigh26(f0 * g0 + f1 * (g4 * 5) + f2 * (g3 * 5) + f3 * (g2 * 5) + f4 * (g1 * 5),
              f0 * g1 + f1 * g0 + f2 * (g4 * 5) + f3 * (g3 * 5) + f4 * (g2 * 5),
              f0 * g2 + f1 * g1 + f2 * g0 + f3 * (g4 * 5) + f4 * (g3 * 5),
              f0 * g3 + f1 * g2 + f2 * g1 + f3 * g0 + f4 * (g4 * 5),
              f0 * g4 + f1 * g3 + f2 * g2 + f3 * g1 + f4 * g0)
      + P130 * Weigh26(f1 * g4 + f2 * g3 + f3 * g2 + f4 * g1, f2 * g4 + f3 * g3 + f4 * g2, f3 * g4 + f4 * g3, f4 * g4, 0)
  {
  }

  const HB: nat := 2 * X26 + 64

  lemma MulBelow26(a: nat, b: nat, n: nat)
    requires a < HB && b < n * X26
    ensures 0 <= a * b <= n * HB * X26
  {
    assert a * b <= HB * b;
    assert HB * b <= HB * (n * X26);
  }

  lemma RowBounds26(x: nat, g0: nat, g1: nat, g2: nat, g3: nat, g4: nat)
    requires x < HB && g0 < X26 && g1 < X26 && g2 < X26 && g3 < X26 && g4 < X26
    ensures 0 <= x * g0 <= HB * X26 && 0 <= x * g1 <= HB * X26 && 0 <= x * g2 <= HB * X26
    ensures 0 <= x * g3 <= HB * X26 && 0 <= x * g4 <= HB * X26
    ensures 0 <= x * (g1 * 5) <= 5 * HB * X26 && 0 <= x * (g2 * 5) <= 5 * HB * X26
    ensures 0 <= x * (g3 * 5) <= 5 * HB * X26 && 0 <= x * (g4 * 5) <= 5 * HB * X26
  {
    MulBelow26(x, g0, 1);
    MulBelow26(x, g1, 1);
    MulBelow26(x, g2, 1);
    MulBelow26(x, g3, 1);
    MulBelow26(x, g4, 1);
    MulBelow26(x, g1 * 5, 5);
    MulBelow26(x, g2 * 5, 5);
    MulBelow26(x, g3 * 5, 5);
    MulBelow26(x, g4 * 5, 5);
  }

  /** One multiplication by r with its carries; every C variable stays within its width. */
  method MulReduce(h0: nat, h1: nat, h2: nat, h3: nat, h4: nat, r: seq<u32>) returns (h: seq<u32>)
    requires h0 < HB && h1 < HB && h2 < HB && h3 < HB && h4 < HB && Clamped(r)
    ensures Settled(h) && Val26(h) % P130 == (Weigh26(h0, h1, h2, h3, h4) * Val26(r)) % P130
  {
    var r0: nat, r1: nat, r2: nat, r3: nat, r4: nat := r[0], r[1], r[2], r[3], r[4];
    var s1: u32, s2: u32, s3: u32, s4: u32 := r1 * 5, r2 * 5, r3 * 5, r4 * 5;
    RowBounds26(h0, r0, r1, r2, r3, r4);
    RowBounds26(h1, r0, r1, r2, r3, r4);
    RowBounds26(h2, r0, r1, r2, r3, r4);
    RowBounds26(h3, r0, r1, r2, r3, r4);
    RowBounds26(h4, r0, r1, r2, r3, r4);
    var d0: u64 := h0 * r0 + h1 * s4 + h2 * s3 + h3 * s2 + h4 * s1;
    var d1: u64 := h0 * r1 + h1 * r0 + h2 * s4 + h3 * s3 + h4 * s2;
    var d2: u64 := h0 * r2 + h1 * r1 + h2 * r0 + h3 * s4 + h4 * s3;
    var d3: u64 := h0 * r3 + h1 * r2 + h2 * r1 + h3 * r0 + h4 * s4;
    var d4: u64 := h0 * r4 + h1 * r3 + h2 * r2 + h3 * r1 + h4 * r0;
    Folded26(h0, h1, h2, h3, h4, r0, r1, r2, r3, r4);
    ghost var q := Weigh26(h1 * r4 + h2 * r3 + h3 * r2 + h4 * r1, h2 * r4 + h3 * r3 + h4 * r2, h3 * r4 + h4 * r3, h4 * r4, 0);
    Cong130(Weigh26(h0, h1, h2, h3, h4) * Val26(r), Weigh26(d0, d1, d2, d3, d4), q);
    h := Carry26(d0, d1, d2, d3, d4);
  }

  method Carry26(d0: u64, d1: u64, d2: u64, d3: u64, d4: u64) returns (h: seq<u32>)
    requires d0 <= 21 * HB * X26 && d1 <= 21 * HB * X26 && d2 <= 21 * HB * X26 && d3 <= 21 * HB * X26
    requires d4 <= 5 * HB * X26
    ensures Settled(h) && Val26(h) % P130 == Weigh26(d0, d1, d2, d3, d4) % P130
  {
    var c0, h0 := d0 / X26, d0 % X26;
    var e1: u64 := d1 + c0;
    var c1, h1 := e1 / X26, e1 % X26;
    var e2: u64 := d2 + c1;
    var c2, h2 := e2 / X26, e2 % X26;
    var e3: u64 := d3 + c2;
    var c3, h3 := e3 / X26, e3 % X26;
    var e4: u64 := d4 + c3;
    var c4, h4 := e4 / X26, e4 % X26;
    var w: u32 := h0 + c4 * 5;
    var c5 := w / X26;
    h := [w % X26, h1 + c5, h2, h3, h4];
    Carried26(d0, d1, d2, d3, d4, c0, c1, c2, c3, c4, h0, h1, h2, h3, h4, c5, w % X26);
    Cong130(Weigh26(d0, d1, d2, d3, d4), Val26(h), c4);
  }

  lemma Carried26(a0: int, a1: int, a2: int, a3: int, a4: int, c0: int, c1: int, c2: int, c3: int, c4: int,
                  h0: int, h1: int, h2: int, h3: int, h4: int, c5: int, w0: int)
    requires a0 == X26 * c0 + h0 && a1 + c0 == X26 * c1 + h1 && a2 + c1 == X26 * c2 + h2
    requires a3 + c2 == X26 * c3 + h3 && a4 + c3 == X26 * c4 + h4 && h0 + c4 * 5 == X26 * c5 + w0
    ensures Weigh26(a0, a1, a2, a3, a4) == Weigh26(w0, h1 + c5, h2, h3, h4) + P130 * c4
  {
  }

  // ---- Loading and storing limbs ------------------------------------------------------------

  /** `a | (x << k)` in 32 bits, where a fits below bit k. */
  function Join32(a: nat, x: nat, k: nat): nat {
    Or(a, (x * Pow2(k)) % 0x1_0000_0000)
  }

  lemma Join32Value(a: nat, x: nat, k: nat, m: nat, n: nat)
    requires m == Pow2(k) && m * n == 0x1_0000_0000 && a < m && n > 0
    ensures Join32(a, x, k) == a + m * (x % n)
  {
    CutField(0, x, m, n);
    OrDisjoint(a, x % n, k);
    Swapped(x % n, m);
  }

  lemma Swapped(a: int, b: int)
    ensures a * b == b * a
  {
  }

  lemma Widen(m: nat, n: nat)
    requires m * n == X26
    ensures m * (64 * n) == 0x1_0000_0000
  {
  }

  /** The same, cut to 26 bits. */
  lemma Join26Value(a: nat, x: nat, k: nat, m: nat, n: nat)
    requires m == Pow2(k) && m * n == X26 && a < m && n > 0
    ensures Join32(a, x, k) % X26 == a + m * (x % n)
  {
    hide Join32, Pow2;
    Widen(m, n);
    Join32Value(a, x, k, m, 64 * n);
    var y := x % (64 * n);
    CutField(a, y, m, n);
    Swapped(y, m);
    ModOfMod(x, 64, n);
  }

  lemma ModOfMod(x: nat, a: nat, n: nat)
    requires a > 0 && n > 0
    ensures a * n > 0 && (x % (a * n)) % n == x % n
  {
    var w := x % (a * n);
    var q := x / (a * n);
    assert x == n * (a * q + w / n) + w % n by {
      assert (a * n) * q == n * (a * q);
      assert w == n * (w / n) + w % n;
      assert n * (a * q + w / n) == n * (a * q) + n * (w / n);
    }
    ModUnique(x, n, a * q + w / n, w % n);
  }

  /** A 128-bit little-endian number as five limbs, the top one with `hibit` joined on. */
  method LoadBlock(m: seq<byte>, hibit: u32) returns (t: seq<nat>)
    requires |m| == 16 && (hibit == 0 || hibit == 0x100_0000)
    ensures |t| == 5 && t[0] < X26 && t[1] < X26 && t[2] < X26 && t[3] < X26 && t[4] < X26
    ensures Weigh26(t[0], t[1], t[2], t[3], t[4]) == LE(m) + X26 * X26 * X26 * X26 * hibit
  {
    hide LE, Le32, Weigh26;
    SixteenBytes(m);
    t := SplitWords(Le32(m[..4]), Le32(m[4..8]), Le32(m[8..12]), Le32(m[12..]), hibit);
  }

  method SplitWords(t0: nat, t1: nat, t2: nat, t3: nat, hibit: nat) returns (t: seq<nat>)
    requires t0 < 0x1_0000_0000 && t1 < 0x1_0000_0000 && t2 < 0x1_0000_0000 && t3 < 0x1_0000_0000
    requires hibit == 0 || hibit == 0x100_0000
    ensures |t| == 5 && t[0] < X26 && t[1] < X26 && t[2] < X26 && t[3] < X26 && t[4] < X26
    ensures Weigh26(t[0], t[1], t[2], t[3], t[4]) ==
            (t0 + 0x1_0000_0000 * t1 + 0x1_00000000_00000000 * t2 + 0x1_00000000_00000000_00000000 * t3)
            + X26 * X26 * X26 * X26 * hibit
  {
    var l1 := MiddleLimb(t0 / X26, t1, 6, 0x40, 0x10_0000);
    var l2 := MiddleLimb(t1 / 0x10_0000, t2, 12, 0x1000, 0x4000);
    var l3 := MiddleLimb(t2 / 0x4000, t3, 18, 0x4_0000, 0x100);
    OrHibit(t3 / 0x100, hibit);
    t := [t0 % X26, l1, l2, l3, Or(t3 / 0x100, hibit)];
    hide Or;
    Words32(t0, t1, t2, t3, hibit);
  }

  method MiddleLimb(a: nat, x: nat, k: nat, ghost m: nat, ghost n: nat) returns (l: nat)
    requires (k == 6 && m == 0x40) || (k == 12 && m == 0x1000) || (k == 18 && m == 0x4_0000)
    requires m * n == X26 && a < m && n > 0
    ensures l == a + m * (x % n) && l < X26
  {
    SmallPowers();
    Join26Value(a, x, k, m, n);
    l := Join32(a, x, k) % X26;
  }

  lemma SmallPowers()
    ensures Pow2(6) == 0x40 && Pow2(12) == 0x1000 && Pow2(18) == 0x4_0000 && Pow2(24) == 0x100_0000
  {
    Pow2Add(6, 6);
    Pow2Add(12, 6);
    Pow2Add(18, 6);
  }

  lemma OrHibit(x: nat, hibit: nat)
    requires x < 0x100_0000 && (hibit == 0 || hibit == 0x100_0000)
    ensures Or(x, hibit) == x + hibit
  {
    SmallPowers();
    OrDisjoint(x, if hibit == 0 then 0 else 1, 24);
  }

  lemma Words32(t0: nat, t1: nat, t2: nat, t3: nat, hibit: nat)
    requires t0 < 0x1_0000_0000 && t1 < 0x1_0000_0000 && t2 < 0x1_0000_0000 && t3 < 0x1_0000_0000
    ensures Weigh26(t0 % X26, t0 / X26 + 0x40 * (t1 % 0x10_0000), t1 / 0x10_0000 + 0x1000 * (t2 % 0x4000),
                    t2 / 0x4000 + 0x4_0000 * (t3 % 0x100), t3 / 0x100 + hibit)
            == (t0 + 0x1_0000_0000 * t1 + 0x1_00000000_00000000 * t2 + 0x1_00000000_00000000_00000000 * t3)
               + X26 * X26 * X26 * X26 * hibit
  {
  }

  lemma SixteenBytes(m: seq<byte>)
    requires |m| == 16
    ensures LE(m) == Le32(m[..4]) as nat + 0x1_0000_0000 * (Le32(m[4..8]) as nat)
                     + 0x1_00000000_00000000 * (Le32(m[8..12]) as nat) + 0x1_00000000_00000000_00000000 * (Le32(m[12..]) as nat)
  {
    hide LE, Pow2;
    assert m == m[..4] + (m[4..8] + (m[8..12] + m[12..]));
    TwoTo32();
    LEAppend(m[..4], m[4..8] + (m[8..12] + m[12..]));
    LEAppend(m[4..8], m[8..12] + m[12..]);
    LEAppend(m[8..12], m[12..]);
  }

  lemma TwoTo26()
    ensures Pow2(26) == X26
  {
    SmallPowers();
    Pow2Add(24, 2);
    assert Pow2(2) == 4;
  }

  /** A mask of at most 26 bits sees only the low 26 bits. */
  lemma AndNarrow(x: nat, c: nat)
    requires c < X26
    ensures And(x, c) == And(x % X26, c)
  {
    TwoTo26();
    AndFields(x % X26, x / X26, c, 0, 26);
  }

  lemma AndLimb(a: nat, b: nat, c: nat, d: nat)
    requires a < X26 && c < X26
    ensures And(a + X26 * b, c + X26 * d) == And(a, c) + X26 * And(b, d)
  {
    TwoTo26();
    Swapped(X26, b);
    Swapped(X26, d);
    Swapped(X26, And(b, d));
    AndFields(a, b, c, d, 26);
  }

  /** The clamp acts limb by limb. */
  lemma ClampLimbs(l0: nat, l1: nat, l2: nat, l3: nat, l4: nat)
    requires l0 < X26 && l1 < X26 && l2 < X26 && l3 < X26
    ensures And(Weigh26(l0, l1, l2, l3, l4), CLAMP) ==
            Weigh26(And(l0, 0x3ff_ffff), And(l1, 0x3ff_ff03), And(l2, 0x3ff_c0ff), And(l3, 0x3f0_3fff), And(l4, 0xf_ffff))
  {
    hide And;
    AndLimb(l3, l4, 0x3f0_3fff, 0xf_ffff);
    AndLimb(l2, l3 + X26 * l4, 0x3ff_c0ff, 0x3f0_3fff + X26 * 0xf_ffff);
    AndLimb(l1, l2 + X26 * (l3 + X26 * l4), 0x3ff_ff03, 0x3ff_c0ff + X26 * (0x3f0_3fff + X26 * 0xf_ffff));
    AndLimb(l0, l1 + X26 * (l2 + X26 * (l3 + X26 * l4)), 0x3ff_ffff,
            0x3ff_ff03 + X26 * (0x3ff_c0ff + X26 * (0x3f0_3fff + X26 * 0xf_ffff)));
  }

  method MaskedLimb(a: nat, x: nat, k: nat, ghost m: nat, ghost n: nat, mask: u32) returns (l: u32)
    requires (k == 6 && m == 0x40) || (k == 12 && m == 0x1000) || (k == 18 && m == 0x4_0000)
    requires m * n == X26 && a < m && n > 0 && mask < X26
    ensures l == And(a + m * (x % n), mask) && l < X26
  {
    SmallPowers();
    Join26Value(a, x, k, m, n);
    AndNarrow(Join32(a, x, k), mask);
    AndBelow(Join32(a, x, k), mask);
    l := And(Join32(a, x, k), mask);
  }

  method LoadR(key: seq<byte>) returns (r: seq<u32>)
    requires |key| == 16
    ensures Clamped(r) && Val26(r) == And(LE(key), CLAMP)
  {
    hide LE, Le32, And;
    SixteenBytes(key);
    var t0: nat, t1: nat, t2: nat, t3: nat := Le32(key[..4]), Le32(key[4..8]), Le32(key[8..12]), Le32(key[12..]);
    AndNarrow(t0, 0x3ff_ffff);
    AndBelow(t0, 0x3ff_ffff);
    AndBelow(t3 / 0x100, 0xf_ffff);
    var r1 := MaskedLimb(t0 / X26, t1, 6, 0x40, 0x10_0000, 0x3ff_ff03);
    var r2 := MaskedLimb(t1 / 0x10_0000, t2, 12, 0x1000, 0x4000, 0x3ff_c0ff);
    var r3 := MaskedLimb(t2 / 0x4000, t3, 18, 0x4_0000, 0x100, 0x3f0_3fff);
    r := [And(t0, 0x3ff_ffff), r1, r2, r3, And(t3 / 0x100, 0xf_ffff)];
    Words32(t0, t1, t2, t3, 0);
    ClampLimbs(t0 % X26, t0 / X26 + 0x40 * (t1 % 0x10_0000), t1 / 0x10_0000 + 0x1000 * (t2 % 0x4000),
               t2 / 0x4000 + 0x4_0000 * (t3 % 0x100), t3 / 0x100);
  }

  // ---- Finishing ------------------------------------------------------------------------------

  predicate Limbs26(h: seq<u32>) {
    |h| == 5 && forall i :: 0 <= i < 5 ==> h[i] < X26
  }

  /** The full carry. The last step leaves the second limb uncarried: a carry out of the top limb
      happens only when every carry before it did, and then the second limb has just wrapped. */
  method FullCarry26(h: seq<u32>) returns (g: seq<u32>)
    requires Settled(h)
    ensures Limbs26(g) && Val26(g) % P130 == Val26(h) % P130
  {
    var h0, h1, h2, h3, h4 := h[0], h[1], h[2], h[3], h[4];
    var c1: u32, g1: u32 := h1 / X26, h1 % X26;
    var s2: u32 := h2 + c1;
    var c2: u32, g2: u32 := s2 / X26, s2 % X26;
    var s3: u32 := h3 + c2;
    var c3: u32, g3: u32 := s3 / X26, s3 % X26;
    var s4: u32 := h4 + c3;
    var c4: u32, g4: u32 := s4 / X26, s4 % X26;
    var s0: u32 := h0 + c4 * 5;
    var c0: u32, g0: u32 := s0 / X26, s0 % X26;
    assert c4 == 1 ==> c1 == 1;
    assert c0 == 1 ==> c4 == 1;
    g := [g0, g1 + c0, g2, g3, g4];
    assert Val26(h) == Val26(g) + P130 * c4;
    Cong130(Val26(h), Val26(g), c4);
  }

  /** `(h & ~mask) | (g & mask)` for the two values the mask takes. */
  function Select(h: u32, g: u32, take: bool): (r: u32)
    ensures r == if take then g else h
  {
    var mask: u32 := if take then 0xffff_ffff else 0;
    AndOnes32(h);
    AndOnes32(g);
    Or(And(h, 0xffff_ffff - mask), And(g, mask))
  }

  /** Adds 5; the result is taken when that carries past 2^130. The top limb of the trial value is
      computed modulo 2^32, and its sign bit decides. */
  method Trial(h0: u32, h1: u32, h2: u32, h3: u32, h4: u32) returns (g: seq<u32>, take: bool)
    requires h0 < X26 && h1 < X26 && h2 < X26 && h3 < X26 && h4 < X26
    ensures |g| == 5 && g[0] < X26 && g[1] < X26 && g[2] < X26 && g[3] < X26 && (take ==> g[4] == 0)
    ensures var v := Weigh26(h0, h1, h2, h3, h4); take == (v >= P130) && (take ==> Val26(g) == v - P130)
  {
    var s0: u32 := h0 + 5;
    var c0: u32, g0: u32 := s0 / X26, s0 % X26;
    var s1: u32 := h1 + c0;
    var c1: u32, g1: u32 := s1 / X26, s1 % X26;
    var s2: u32 := h2 + c1;
    var c2: u32, g2: u32 := s2 / X26, s2 % X26;
    var s3: u32 := h3 + c2;
    var c3: u32, g3: u32 := s3 / X26, s3 % X26;
    var g4: u32 := (h4 as int + c3 - X26) % 0x1_0000_0000;
    take := g4 / 0x8000_0000 == 0;
    g := [g0, g1, g2, g3, g4];
    assert h4 + c3 <= X26;
    if h4 + c3 < X26 {
      ModUnique(h4 + c3 - X26, 0x1_0000_0000, -1, h4 + c3 - X26 + 0x1_0000_0000);
    }
    assert take <==> h4 + c3 == X26;
    TrialValue(h0, h1, h2, h3, h4, c0, c1, c2, c3, g0, g1, g2, g3);
  }

  lemma TrialValue(h0: int, h1: int, h2: int, h3: int, h4: int, c0: int, c1: int, c2: int, c3: int,
                   g0: int, g1: int, g2: int, g3: int)
    requires h0 + 5 == X26 * c0 + g0 && h1 + c0 == X26 * c1 + g1 && h2 + c1 == X26 * c2 + g2 && h3 + c2 == X26 * c3 + g3
    requires 0 <= g0 < X26 && 0 <= g1 < X26 && 0 <= g2 < X26 && 0 <= g3 < X26 && 0 <= h4 + c3 <= X26
    ensures Weigh26(h0, h1, h2, h3, h4) + 5 == Weigh26(g0, g1, g2, g3, h4 + c3)
    ensures Weigh26(h0, h1, h2, h3, h4) >= P130 <==> h4 + c3 == X26
  {
  }

  /** One conditional subtraction of P130. */
  method SubtractOnce(h: seq<u32>) returns (r: seq<u32>)
    requires Limbs26(h)
    ensures Limbs26(r) && Val26(r) == Val26(h) % P130
  {
    hide Select;
    var g, take := Trial(h[0], h[1], h[2], h[3], h[4]);
    r := [Select(h[0], g[0], take), Select(h[1], g[1], take), Select(h[2], g[2], take), Select(h[3], g[3], take),
          Select(h[4], g[4], take)];
    var v := Val26(h);
    assert Val26(r) == if take then Val26(g) else v;
    if take {
      ModUnique(v, P130, 1, v - P130);
    }
  }

  function Weigh32(a: int, b: int, c: int, d: int): int {
    a + 0x1_0000_0000 * b + 0x1_00000000_00000000 * c + 0x1_00000000_00000000_00000000 * d
  }

  /** Five 26-bit limbs packed with OR into the low four 32-bit words. */
  method Pack32(h: seq<u32>) returns (w: seq<u32>)
    requires Limbs26(h)
    ensures |w| == 4 && Weigh32(w[0], w[1], w[2], w[3]) == Val26(h) % T128
  {
    var h0: nat, h1: nat, h2: nat, h3: nat, h4: nat := h[0], h[1], h[2], h[3], h[4];
    TwoTo26();
    assert Pow2(20) == 0x10_0000 && Pow2(14) == 0x4000 && Pow2(8) == 0x100 by {
      assert Pow2(14) == 0x4000;
      Pow2Add(14, 6);
      SmallPowers();
    }
    Join32Value(h0, h1, 26, X26, 0x40);
    Join32Value(h1 / 0x40, h2, 20, 0x10_0000, 0x1000);
    Join32Value(h2 / 0x1000, h3, 14, 0x4000, 0x4_0000);
    Join32Value(h3 / 0x4_0000, h4, 8, 0x100, 0x100_0000);
    w := [Join32(h0, h1, 26), Join32(h1 / 0x40, h2, 20), Join32(h2 / 0x1000, h3, 14), Join32(h3 / 0x4_0000, h4, 8)];
    hide Join32, Pow2;
    Packed(h0, h1, h2, h3, h4);
  }

  lemma Packed(h0: nat, h1: nat, h2: nat, h3: nat, h4: nat)
    requires h0 < X26 && h1 < X26 && h2 < X26 && h3 < X26 && h4 < X26
    ensures Weigh32(h0 + X26 * (h1 % 0x40), h1 / 0x40 + 0x10_0000 * (h2 % 0x1000), h2 / 0x1000 + 0x4000 * (h3 % 0x4_0000),
                    h3 / 0x4_0000 + 0x100 * (h4 % 0x100_0000))
            == Weigh26(h0, h1, h2, h3, h4) % T128
  {
    var w := Weigh32(h0 + X26 * (h1 % 0x40), h1 / 0x40 + 0x10_0000 * (h2 % 0x1000), h2 / 0x1000 + 0x4000 * (h3 % 0x4_0000),
                     h3 / 0x4_0000 + 0x100 * (h4 % 0x100_0000));
    assert Weigh26(h0, h1, h2, h3, h4) == w + T128 * (h4 / 0x100_0000);
    ModUnique(Weigh26(h0, h1, h2, h3, h4), T128, h4 / 0x100_0000, w);
  }

  /** Addition of two 128-bit numbers word by word, dropping the last carry. */
  method AddWords(a: seq<u32>, b: seq<u32>) returns (w: seq<u32>)
    requires |a| == 4 && |b| == 4
    ensures |w| == 4
    ensures Weigh32(w[0], w[1], w[2], w[3]) == (Weigh32(a[0], a[1], a[2], a[3]) + Weigh32(b[0], b[1], b[2], b[3])) % T128
  {
    var a0: nat, a1: nat, a2: nat, a3: nat := a[0], a[1], a[2], a[3];
    var b0: nat, b1: nat, b2: nat, b3: nat := b[0], b[1], b[2], b[3];
    var f: u64 := a0 + b0;
    var w0, f0 := f % 0x1_0000_0000, f / 0x1_0000_0000;
    f := f0 + a1 + b1;
    var w1, f1 := f % 0x1_0000_0000, f / 0x1_0000_0000;
    f := f1 + a2 + b2;
    var w2, f2 := f % 0x1_0000_0000, f / 0x1_0000_0000;
    f := f2 + a3 + b3;
    var w3 := f % 0x1_0000_0000;
    w := [w0, w1, w2, w3];
    var sum := Weigh32(a0, a1, a2, a3) + Weigh32(b0, b1, b2, b3);
    assert sum == Weigh32(w0, w1, w2, w3) + T128 * (f / 0x1_0000_0000);
    ModUnique(sum, T128, f / 0x1_0000_0000, Weigh32(w0, w1, w2, w3));
  }

  // ---- The streaming context --------------------------------------------------------------------

  lemma EvalStep(r: nat, full: seq<byte>, block: seq<byte>)
    requires |full| % 16 == 0 && 1 <= |block| <= 16
    ensures Eval(r, full + block) == Absorb(r, Eval(r, full), block)
  {
    hide Absorb;
    var msg := full + block;
    assert (|msg| - 1) / 16 * 16 == |full|;
    assert msg[..|full|] == full && msg[|full|..] == block;
  }

  lemma TopByte(m: seq<byte>)
    requires |m| == 16
    ensures LE(m + [1]) == LE(m) + X26 * X26 * X26 * X26 * 0x100_0000
  {
    LEAppend(m, [1]);
    assert LE([1]) == 1;
    TwoTo64();
    Pow2Add(64, 64);
  }

  lemma PaddedBlock(part: seq<byte>, last: seq<byte>)
    requires |part| < 16 && |last| == 16 && last[..|part|] == part && last[|part|] == 1
    requires forall i :: |part| < i < 16 ==> last[i] == 0
    ensures LE(last) == LE(part + [1])
  {
    hide LE, Pow2;
    var head: seq<byte>, zeros := part + [1], last[|part| + 1..];
    assert last[..|part| + 1] == head;
    assert last == head + zeros;
    LEAppend(head, zeros);
    LEZeros(zeros);
  }

  /** What a block step does to any number congruent to the accumulator. */
  lemma WeighSum(a0: int, a1: int, a2: int, a3: int, a4: int, b0: int, b1: int, b2: int, b3: int, b4: int)
    ensures Weigh26(a0 + b0, a1 + b1, a2 + b2, a3 + b3, a4 + b4) == Weigh26(a0, a1, a2, a3, a4) + Weigh26(b0, b1, b2, b3, b4)
  {
  }

  method LoadS(key: seq<byte>) returns (s: seq<u32>)
    requires |key| == 16
    ensures |s| == 4 && Weigh32(s[0], s[1], s[2], s[3]) == LE(key)
  {
    hide LE, Le32;
    SixteenBytes(key);
    s := [Le32(key[..4]), Le32(key[4..8]), Le32(key[8..12]), Le32(key[12..])];
  }

  lemma EvalEmpty(r: nat)
    ensures Eval(r, []) == 0
  {
  }

  lemma Reassociate(m0: seq<byte>, m: seq<byte>, want: nat, m1: seq<byte>, block: seq<byte>)
    requires want <= |m| && m1 + block == m0 + m[..want]
    ensures (m1 + block) + m[want..] == m0 + m
  {
    assert m == m[..want] + m[want..];
  }

  class Context {
    const r: seq<u32>
    const s: seq<u32>
    const h: array<u32>
    const buf: array<byte>
    var buflen: nat
    ghost const key: seq<byte>
    ghost var msg: seq<byte>

    /** The limbs stand for the evaluation of the full blocks of `msg`; the rest of it is in `buf`. */
    ghost predicate Valid()
      reads this, h, buf
    {
      && h.Length == 5 && buf.Length == 16 && buflen < 16 && |key| == 32
      && buflen <= |msg| && (|msg| - buflen) % 16 == 0
      && buf[..buflen] == msg[|msg| - buflen..]
      && Clamped(r) && Val26(r) == KeyR(key)
      && |s| == 4 && Weigh32(s[0], s[1], s[2], s[3]) == LE(key[16..])
      && Settled(h[..]) && Val26(h[..]) % P130 == Eval(KeyR(key), msg[..|msg| - buflen])
    }

    constructor (k: seq<byte>)
      requires |k| == 32
      ensures Valid() && fresh(h) && fresh(buf)
      ensures key == k && msg == [] && buflen == 0
    {
      hide LE, And, Eval, Weigh32;
      var limbs := LoadR(k[..16]);
      var words := LoadS(k[16..]);
      r, s := limbs, words;
      h := new u32[5](_ => 0);
      buf := new byte[16](_ => 0);
      buflen := 0;
      key, msg := k, [];
      new;
      EvalEmpty(KeyR(key));
      assert h[..] == [0, 0, 0, 0, 0];
      assert Val26([0, 0, 0, 0, 0]) == 0;
      assert msg[..|msg| - buflen] == [];
    }

    method Block(m: seq<byte>, hibit: u32)
      requires h.Length == 5 && Settled(h[..]) && Clamped(r)
      requires |m| == 16 && (hibit == 0 || hibit == 0x100_0000)
      modifies h
      ensures Settled(h[..])
      ensures Val26(h[..]) % P130 == ((old(Val26(h[..])) + LE(m) + X26 * X26 * X26 * X26 * hibit) * Val26(r)) % P130
    {
      hide LE, Weigh26;
      var t := LoadBlock(m, hibit);
      WeighSum(h[0], h[1], h[2], h[3], h[4], t[0], t[1], t[2], t[3], t[4]);
      var h' := MulReduce(h[0] + t[0], h[1] + t[1], h[2] + t[2], h[3] + t[3], h[4] + t[4], r);
      h[0], h[1], h[2], h[3], h[4] := h'[0], h'[1], h'[2], h'[3], h'[4];
      assert h[..] == h';
    }

    /** One full block, straight from the input or from the buffer. */
    method FullBlock(m: seq<byte>)
      requires Valid() && buflen == 0 && |m| == 16
      modifies this, h
      ensures Valid() && buflen == 0 && msg == old(msg) + m
    {
      hide LE, Eval, KeyR, Val26;
      ghost var v, acc := Val26(h[..]), Eval(KeyR(key), msg);
      assert msg[..|msg|] == msg;
      TopByte(m);
      Block(m, 0x100_0000);
      ghost var n := LE(m + [1]);
      assert (v + n) * Val26(r) % P130 == Absorb(Val26(r), acc, m) by {
        ghost var k := v / P130 - acc / P130;
        Distribute2(acc + n, k, Val26(r));
        Cong130((v + n) * Val26(r), (acc + n) * Val26(r), k * Val26(r));
      }
      hide Absorb;
      EvalStep(KeyR(key), msg, m);
      msg := msg + m;
      assert msg[..|msg|] == msg;
    }

    /** memcpy(buf + off, data, len). */
    method CopyIn(off: nat, data: seq<byte>)
      requires buf.Length == 16 && off + |data| <= 16
      modifies buf
      ensures buf[..off + |data|] == old(buf[..off]) + data
    {
      forall i | 0 <= i < |data| {
        buf[off + i] := data[i];
      }
    }

    /** Moves the buffered bytes out of `msg`, so that a block made from them can be absorbed. */
    method TakeBuffered(more: seq<byte>) returns (block: seq<byte>)
      requires Valid() && buflen + |more| == 16
      modifies this, buf
      ensures Valid() && buflen == 0
      ensures |block| == 16 && msg + block == old(msg) + more
    {
      hide LE, Eval, KeyR, Val26;
      CopyIn(buflen, more);
      block := buf[..];
      assert block == buf[..buflen + |more|];
      ghost var full := msg[..|msg| - buflen];
      assert msg == full + msg[|msg| - buflen..];
      msg := full;
      buflen := 0;
      assert msg[..|msg|] == msg;
    }

    /** Less than what completes a block: only the buffer grows. */
    method Extend(m: seq<byte>)
      requires Valid() && buflen + |m| < 16
      modifies this, buf
      ensures Valid() && msg == old(msg) + m && buflen == old(buflen) + |m|
    {
      hide LE, Eval, KeyR, Val26;
      CopyIn(buflen, m);
      ghost var full := msg[..|msg| - buflen];
      buflen := buflen + |m|;
      msg := msg + m;
      assert msg[..|msg| - buflen] == full;
    }

    method Blocks(m: seq<byte>) returns (at: nat)
      requires Valid() && buflen == 0
      modifies this, h
      ensures at <= |m| && |m| - at < 16
      ensures Valid() && buflen == 0 && msg == old(msg) + m[..at]
    {
      hide Valid;
      at := 0;
      assert m[..at] == [];
      while |m| - at >= 16
        invariant at <= |m| && Valid() && buflen == 0 && msg == old(msg) + m[..at]
      {
        FullBlock(m[at..at + 16]);
        assert m[..at] + m[at..at + 16] == m[..at + 16];
        at := at + 16;
      }
    }

    /** Completes the buffered block if `m` suffices for that; otherwise buffers all of `m`. */
    method Drain(m: seq<byte>) returns (rest: seq<byte>)
      requires Valid() && buflen > 0
      modifies this, h, buf
      ensures Valid() && msg + rest == old(msg) + m && (buflen == 0 || rest == [])
    {
      assert buflen < 16;
      hide Valid;
      var want := 16 - buflen;
      if |m| < want {
        Extend(m);
        return [];
      }
      ghost var m0 := msg;
      var block := TakeBuffered(m[..want]);
      ghost var m1 := msg;
      FullBlock(block);
      rest := m[want..];
      Reassociate(m0, m, want, m1, block);
    }

    /** Any split of a message into updates has the same effect as one update. */
    method Update(m: seq<byte>)
      requires Valid()
      modifies this, h, buf
      ensures Valid() && msg == old(msg) + m
    {
      hide Valid;
      var rest := m;
      if buflen > 0 {
        rest := Drain(m);
        if rest == [] {
          return;
        }
      }
      var at := Blocks(rest);
      assert rest == rest[..at] + rest[at..];
      Extend(rest[at..]);
    }

    /** Zeros up to the next multiple of sixteen, counted from `len`. */
    method Pad16(len: nat)
      requires Valid()
      modifies this, h, buf
      ensures Valid() && msg == old(msg) + Zeros((16 - len % 16) % 16)
    {
      hide Valid;
      var rem := len % 16;
      if rem != 0 {
        Update(Zeros(16 - rem));
      }
    }

    method Flush()
      requires Valid()
      modifies this`buflen, h
      ensures Settled(h[..]) && Val26(h[..]) % P130 == Eval(KeyR(key), msg)
    {
      hide LE, Eval, KeyR, Val26;
      ghost var full, part := msg[..|msg| - buflen], buf[..buflen];
      assert msg == full + part;
      if buflen > 0 {
        var last: seq<byte> := buf[..buflen] + [1] + Zeros(15 - buflen);
        PaddedBlock(part, last);
        ghost var v := Val26(h[..]);
        Block(last, 0);
        ghost var acc, n := Eval(KeyR(key), full), LE(part + [1]);
        assert (v + n) * Val26(r) % P130 == Absorb(Val26(r), acc, part) by {
          ghost var k := v / P130 - acc / P130;
          Distribute2(acc + n, k, Val26(r));
          Cong130((v + n) * Val26(r), (acc + n) * Val26(r), k * Val26(r));
        }
        hide Absorb;
        EvalStep(KeyR(key), full, part);
        buflen := 0;
      } else {
        assert msg == full;
      }
    }

    /** The tag is the one-shot authenticator of everything absorbed, however it was split. */
    method Finish() returns (tag: seq<byte>)
      requires Valid()
      modifies this`buflen, h
      ensures |tag| == 16 && LE(tag) == Mac(key, old(msg))
    {
      hide LE, Eval, KeyR, Val26, Weigh32;
      Flush();
      tag := FinalTag(h[..], s);
    }
  }

  method FinalTag(h: seq<u32>, s: seq<u32>) returns (tag: seq<byte>)
    requires Settled(h) && |s| == 4
    ensures |tag| == 16 && LE(tag) == (Val26(h) % P130 + Weigh32(s[0], s[1], s[2], s[3])) % T128
  {
    hide LE, Val26, Weigh32;
    var g := FullCarry26(h);
    g := SubtractOnce(g);
    var w := Pack32(g);
    ModThenAdd(Val26(g), Weigh32(s[0], s[1], s[2], s[3]));
    w := AddWords(w, s);
    tag := TagBytes(w);
  }

  lemma ModThenAdd(a: int, b: int)
    ensures (a % T128 + b) % T128 == (a + b) % T128
  {
    ModUnique(a + b, T128, a / T128 + (a % T128 + b) / T128, (a % T128 + b) % T128);
  }

  lemma FourPieces(a: seq<byte>, b: seq<byte>, c: seq<byte>, d: seq<byte>)
    requires |a| == 4 && |b| == 4 && |c| == 4 && |d| == 4
    ensures LE(a + (b + (c + d))) == Weigh32(LE(a), LE(b), LE(c), LE(d))
  {
    TwoTo32();
    hide LE, Pow2;
    LEAppend(c, d);
    LEAppend(b, c + d);
    LEAppend(a, b + (c + d));
  }

  lemma WordBytes(w: u32)
    ensures LE(ShiftBytes(w, 4)) == w
  {
    TwoTo32();
    hide LE, Pow2, ShiftBytes;
    ShiftBytesValue(w, 4);
  }

  /** memcpy of the four words of a tag to a byte array on a little-endian host. */
  method TagBytes(w: seq<u32>) returns (b: seq<byte>)
    requires |w| == 4
    ensures |b| == 16 && LE(b) == Weigh32(w[0], w[1], w[2], w[3])
  {
    hide LE, ShiftBytes, Weigh32;
    var b0, b1, b2, b3 := ShiftBytes(w[0], 4), ShiftBytes(w[1], 4), ShiftBytes(w[2], 4), ShiftBytes(w[3], 4);
    WordBytes(w[0]);
    WordBytes(w[1]);
    WordBytes(w[2]);
    WordBytes(w[3]);
    b := b0 + (b1 + (b2 + b3));
    FourPieces(b0, b1, b2, b3);
  }
}
