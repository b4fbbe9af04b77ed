/** Machine words as bounded integers. Shifts are written as multiplication and division by a
    power of two and low masks as remainders; the other bitwise operators are defined bit by bit. */
module Words {
  type byte = x: int | 0 <= x < 0x100
  type u32 = x: int | 0 <= x < 0x1_0000_0000
  type u64 = x: int | 0 <= x < 0x1_0000_0000_0000_0000
  type u128 = x: int | 0 <= x < 0x1_0000_0000_0000_0000_0000_0000_0000_0000

  function Pow2(k: nat): (r: nat)
    ensures r > 0
  {
    if k == 0 then 1 else 2 * Pow2(k - 1)
  }

  function And(a: nat, b: nat): nat {
    if a == 0 || b == 0 then 0
    else 2 * And(a / 2, b / 2) + (if a % 2 == 1 && b % 2 == 1 then 1 else 0)
  }

  function Or(a: nat, b: nat): nat
    decreases a + b
  {
    if a == 0 then b
    else if b == 0 then a
    else 2 * Or(a / 2, b / 2) + (if a % 2 == 1 || b % 2 == 1 then 1 else 0)
  }

  function Xor(a: nat, b: nat): nat
    decreases a + b
  {
    if a == 0 then b
    else if b == 0 then a
    else 2 * Xor(a / 2, b / 2) + (if a % 2 != b % 2 then 1 else 0)
  }

  lemma Pow2Step(k: nat)
    ensures Pow2(k + 1) == 2 * Pow2(k)
  {
  }

  lemma {:induction false} Pow2Add(i: nat, j: nat)
    ensures Pow2(i + j) == Pow2(i) * Pow2(j)
  {
    if i == 0 {
    } else {
      Pow2Add(i - 1, j);
      assert 2 * (Pow2(i - 1) * Pow2(j)) == (2 * Pow2(i - 1)) * Pow2(j);
    }
  }

  lemma AndZero(x: nat)
    ensures And(x, 0) == 0 && And(0, x) == 0
  {
  }

  lemma AndOdd(x: nat, m: nat)
    requires m > 0
    ensures And(x, 2 * m - 1) == 2 * And(x / 2, m - 1) + x % 2
  {
    assert (2 * m - 1) / 2 == m - 1 && (2 * m - 1) % 2 == 1;
  }

  lemma {:induction false} AndMask(x: nat, k: nat)
    ensures And(x, Pow2(k) - 1) == x % Pow2(k)
  {
    if k == 0 {
      AndZero(x);
    } else {
      hide And, Pow2;
      var m := Pow2(k - 1);
      Pow2Step(k - 1);
      AndMask(x / 2, k - 1);
      AndOdd(x, m);
      ModDouble(x, m);
    }
  }

  lemma ModDouble(x: nat, m: nat)
    requires m > 0
    ensures x % (2 * m) == 2 * ((x / 2) % m) + x % 2
  {
    var q, r := (x / 2) / m, (x / 2) % m;
    assert x == (2 * m) * q + (2 * r + x % 2) by { assert x / 2 == m * q + r; assert 2 * (m * q) == (2 * m) * q; }
    ModUnique(x, 2 * m, q, 2 * r + x % 2);
  }

  lemma ModUnique(x: int, m: int, q: int, r: int)
    requires m > 0 && 0 <= r < m && x == m * q + r
    ensures x / m == q && x % m == r
  {
    var d := x / m - q;
    assert m * d == r - x % m by {
      assert x == m * (x / m) + x % m;
      assert m * (x / m) - m * q == m * d;
    }
    assert d >= 1 ==> m * d >= m;
    assert d <= -1 ==> m * d <= -m;
  }

  lemma MulBelow(m: nat, r: nat, n: nat)
    requires r < n
    ensures 0 <= m * r <= m * n - m
  {
    assert m * r <= m * (n - 1);
  }

  /** A field of width m below a number x, cut to width m * n. */
  lemma CutField(a: nat, x: nat, m: nat, n: nat)
    requires a < m && n > 0
    ensures m * n > 0 && (a + x * m) % (m * n) == a + m * (x % n)
  {
    var d, r := x / n, x % n;
    Distribute(m, n, d, r);
    MulBelow(m, r, n);
    ModUnique(a + x * m, m * n, d, a + m * r);
  }

  lemma Distribute(m: int, n: int, d: int, r: int)
    ensures (n * d + r) * m == (m * n) * d + m * r
  {
  }

  lemma DivTwice(k: nat, m: nat, n: nat)
    requires m > 0 && n > 0
    ensures k / (n * m) == (k / m) / n && n * m > 0
  {
    var q, r := k / m, k % m;
    var a, b := q / n, q % n;
    MulBelow(m, b, n);
    assert k == (n * m) * a + (m * b + r) by {
      assert m * q == m * (n * a) + m * b;
      assert m * (n * a) == (n * m) * a;
    }
    ModUnique(k, n * m, a, m * b + r);
  }

  /** Joining two disjoint bit fields with OR adds them. */
  lemma {:induction false} OrDisjoint(a: nat, b: nat, k: nat)
    requires a < Pow2(k)
    ensures Or(a, b * Pow2(k)) == a + b * Pow2(k)
  {
    if a == 0 || b == 0 {
      assert b == 0 ==> b * Pow2(k) == 0;
    } else {
      var m := Pow2(k - 1);
      assert b * Pow2(k) == 2 * (b * m);
      OrDisjoint(a / 2, b, k - 1);
      assert b * m > 0;
    }
  }

  lemma {:induction false} XorCommutes(a: nat, b: nat)
    ensures Xor(a, b) == Xor(b, a)
    decreases a + b
  {
    if a != 0 && b != 0 {
      XorCommutes(a / 2, b / 2);
    }
  }

  lemma {:induction false} OrCommutes(a: nat, b: nat)
    ensures Or(a, b) == Or(b, a)
    decreases a + b
  {
    if a != 0 && b != 0 {
      OrCommutes(a / 2, b / 2);
    }
  }

  lemma {:induction false} AndCommutes(a: nat, b: nat)
    ensures And(a, b) == And(b, a)
  {
    if a != 0 && b != 0 {
      AndCommutes(a / 2, b / 2);
    }
  }

  lemma AndHalves(a: nat, b: nat)
    ensures And(a, b) == 2 * And(a / 2, b / 2) + (if a % 2 == 1 && b % 2 == 1 then 1 else 0)
  {
  }

  lemma {:induction false} AndBelow(a: nat, b: nat)
    ensures And(a, b) <= a && And(a, b) <= b
  {
    if a != 0 && b != 0 {
      AndBelow(a / 2, b / 2);
    }
  }

  lemma HalfOfField(a: nat, b: nat, m: nat)
    ensures (a + b * (2 * m)) / 2 == a / 2 + b * m && (a + b * (2 * m)) % 2 == a % 2
  {
    Doubled(b, m);
  }

  /** AND acts separately on the fields below and above bit k. */
  lemma {:induction false} AndFields(a: nat, b: nat, c: nat, d: nat, k: nat)
    requires a < Pow2(k) && c < Pow2(k)
    ensures And(a + b * Pow2(k), c + d * Pow2(k)) == And(a, c) + And(b, d) * Pow2(k)
  {
    if k == 0 {
    } else {
      var m := Pow2(k - 1);
      HalfOfField(a, b, m);
      HalfOfField(c, d, m);
      AndHalves(a + b * Pow2(k), c + d * Pow2(k));
      AndHalves(a, c);
      AndFields(a / 2, b, c / 2, d, k - 1);
      Doubled(And(b, d), m);
    }
  }

  lemma Doubled(b: nat, m: nat)
    ensures 2 * (b * m) == b * (2 * m)
  {
  }

  /** OR with a single bit at or above every bit of x. */
  lemma {:induction false} OrTopBit(x: nat, k: nat)
    requires x < 2 * Pow2(k)
    ensures Or(x, Pow2(k)) == x % Pow2(k) + Pow2(k)
  {
    if k != 0 && x != 0 {
      OrTopBit(x / 2, k - 1);
      ModDouble(x, Pow2(k - 1));
    }
  }

  lemma {:induction false} OrBound(a: nat, b: nat, k: nat)
    requires a < Pow2(k) && b < Pow2(k)
    ensures Or(a, b) < Pow2(k)
  {
    if k != 0 {
      OrBound(a / 2, b / 2, k - 1);
      OrHalves(a, b);
    }
  }

  lemma OrHalves(a: nat, b: nat)
    ensures Or(a, b) / 2 == Or(a / 2, b / 2)
    ensures Or(a, b) % 2 == (if a % 2 == 1 || b % 2 == 1 then 1 else 0)
  {
  }

  lemma {:induction false} OrIsZero(a: nat, b: nat)
    ensures Or(a, b) == 0 <==> a == 0 && b == 0
    decreases a + b
  {
    if a != 0 && b != 0 {
      OrHalves(a, b);
      OrIsZero(a / 2, b / 2);
    }
  }

  function BitOf(x: nat, i: nat): nat { (x / Pow2(i)) % 2 }

  lemma LowerBit(x: nat, i: nat)
    requires i > 0
    ensures BitOf(x, i) == BitOf(x / 2, i - 1)
  {
    DivTwice(x, 2, Pow2(i - 1));
  }

  lemma LastBit(x: nat)
    ensures BitOf(x, 0) == x % 2
  {
  }

  /** The three operators act on each bit by itself. */
  lemma {:induction false} OperatorsByBit(a: nat, b: nat, i: nat)
    ensures BitOf(And(a, b), i) == if BitOf(a, i) == 1 && BitOf(b, i) == 1 then 1 else 0
    ensures BitOf(Or(a, b), i) == if BitOf(a, i) == 1 || BitOf(b, i) == 1 then 1 else 0
    ensures BitOf(Xor(a, b), i) == if BitOf(a, i) != BitOf(b, i) then 1 else 0
  {
    AndHalves(a, b);
    OrHalves(a, b);
    XorHalves(a, b);
    hide And, Or, Xor, BitOf;
    if i == 0 {
      LastBit(a);
      LastBit(b);
      LastBit(And(a, b));
      LastBit(Or(a, b));
      LastBit(Xor(a, b));
    } else {
      OperatorsByBit(a / 2, b / 2, i - 1);
      LowerBit(a, i);
      LowerBit(b, i);
      LowerBit(And(a, b), i);
      LowerBit(Or(a, b), i);
      LowerBit(Xor(a, b), i);
      AndHalf(a, b);
    }
  }

  lemma AndHalf(a: nat, b: nat)
    ensures And(a, b) / 2 == And(a / 2, b / 2)
  {
    AndHalves(a, b);
  }

  lemma {:induction false} XorIsZero(a: nat, b: nat)
    ensures Xor(a, b) == 0 <==> a == b
    decreases a + b
  {
    if a != 0 && b != 0 {
      XorHalves(a, b);
      XorIsZero(a / 2, b / 2);
    }
  }

  lemma XorHalves(a: nat, b: nat)
    ensures Xor(a, b) / 2 == Xor(a / 2, b / 2)
    ensures Xor(a, b) % 2 == (if a % 2 != b % 2 then 1 else 0)
  {
  }

  lemma {:induction false} XorCancels(a: nat, b: nat)
    ensures Xor(a, Xor(a, b)) == b
    decreases a + b
  {
    if a != 0 || b != 0 {
      var x := Xor(a, b);
      XorHalves(a, b);
      XorHalves(a, x);
      XorCancels(a / 2, b / 2);
    }
  }

  lemma {:induction false} XorBound(a: nat, b: nat, k: nat)
    requires a < Pow2(k) && b < Pow2(k)
    ensures Xor(a, b) < Pow2(k)
  {
    if k != 0 {
      XorBound(a / 2, b / 2, k - 1);
      XorHalves(a, b);
    }
  }

  lemma {:induction false} XorAssociates(a: nat, b: nat, c: nat)
    ensures Xor(Xor(a, b), c) == Xor(a, Xor(b, c))
    decreases a + b + c
  {
    if a != 0 || b != 0 || c != 0 {
      var l, r := Xor(Xor(a, b), c), Xor(a, Xor(b, c));
      XorHalves(a, b);
      XorHalves(b, c);
      XorHalves(Xor(a, b), c);
      XorHalves(a, Xor(b, c));
      hide Xor;
      XorAssociates(a / 2, b / 2, c / 2);
      assert l == 2 * (l / 2) + l % 2 && r == 2 * (r / 2) + r % 2;
    }
  }

  lemma TwoTo64()
    ensures Pow2(64) == 0x1_0000_0000_0000_0000
  {
    assert Pow2(8) == 0x100;
    Pow2Next8(8);
    Pow2Next8(16);
    Pow2Next8(24);
    Pow2Next8(32);
    Pow2Next8(40);
    Pow2Next8(48);
    Pow2Next8(56);
  }

  /** Selecting with a mask of all ones or all zeros. */
  lemma AndOnes64(x: u64)
    ensures And(0xffff_ffff_ffff_ffff, x) == x && And(0, x) == 0
  {
    hide And, Pow2;
    TwoTo64();
    AndMask(x, 64);
    AndCommutes(x, 0xffff_ffff_ffff_ffff);
    AndZero(x);
  }

  lemma TwoTo32()
    ensures Pow2(32) == 0x1_0000_0000
  {
    assert Pow2(8) == 0x100;
    Pow2Next8(8);
    Pow2Next8(16);
    Pow2Next8(24);
  }

  lemma AndOnes32(x: u32)
    ensures And(x, 0xffff_ffff) == x && And(x, 0) == 0
  {
    hide And, Pow2;
    TwoTo32();
    AndMask(x, 32);
    AndZero(x);
  }

  // ---- Little-endian byte strings -------------------------------------------------------

  function LE(s: seq<nat>): nat {
    if s == [] then 0 else s[0] + 0x100 * LE(s[1..])
  }

  lemma Pow2Next8(k: nat)
    ensures Pow2(k + 8) == 0x100 * Pow2(k)
  {
    Pow2Add(k, 8);
    assert Pow2(8) == 0x100;
  }

  lemma {:induction false} LEBound(s: seq<byte>)
    ensures LE(s) < Pow2(8 * |s|)
  {
    if s != [] {
      LEBound(s[1..]);
      Pow2Next8(8 * |s[1..]|);
    }
  }

  lemma {:induction false} LEAppend(s: seq<nat>, t: seq<nat>)
    ensures LE(s + t) == LE(s) + Pow2(8 * |s|) * LE(t)
  {
    if s == [] {
      assert s + t == t;
    } else {
      LEAppend(s[1..], t);
      assert (s + t)[1..] == s[1..] + t;
      var k := 8 * |s[1..]|;
      Pow2Next8(k);
      Scale(Pow2(k), LE(t));
    }
  }

  lemma Scale(m: nat, v: nat)
    ensures 0x100 * (m * v) == (0x100 * m) * v
  {
  }

  /** Equal lengths and equal values make equal strings. */
  lemma {:induction false} LEInjective(s: seq<byte>, t: seq<byte>)
    requires |s| == |t| && LE(s) == LE(t)
    ensures s == t
  {
    if s != [] {
      assert s[0] == LE(s) % 0x100 && t[0] == LE(t) % 0x100;
      LEInjective(s[1..], t[1..]);
      assert s == [s[0]] + s[1..] && t == [t[0]] + t[1..];
    }
  }

  function Zeros(n: nat): (z: seq<byte>)
    ensures |z| == n && forall i :: 0 <= i < n ==> z[i] == 0
  {
    seq(n, _ => 0)
  }

  lemma {:induction false} LEZeros(z: seq<nat>)
    requires forall i :: 0 <= i < |z| ==> z[i] == 0
    ensures LE(z) == 0
  {
    if z != [] {
      LEZeros(z[1..]);
    }
  }

  lemma LE4(s: seq<nat>)
    requires |s| == 4
    ensures LE(s) == s[0] + 0x100 * s[1] + 0x1_0000 * s[2] + 0x100_0000 * s[3]
  {
    assert LE(s[1..][1..]) == s[2] + 0x100 * LE(s[1..][1..][1..]);
    assert LE(s[1..][1..][1..]) == s[3];
  }

  /** `acc | b[0] << w | b[1] << (w + 8) | ...`: how the C code loads bytes into a word. */
  function OrBytes(acc: nat, w: nat, bytes: seq<nat>): nat
    decreases |bytes|
  {
    if bytes == [] then acc
    else OrBytes(Or(acc, bytes[0] * Pow2(w)), w + 8, bytes[1..])
  }

  lemma Spread(m: int, b: int, v: int)
    ensures m * (b + 0x100 * v) == b * m + (0x100 * m) * v
  {
    calc {
      m * (b + 0x100 * v);
      m * b + m * (0x100 * v);
      b * m + (0x100 * m) * v;
    }
  }

  lemma JoinByte(acc: nat, m: nat, b: nat, v: nat)
    requires acc < m && b < 0x100
    ensures acc + b * m < 0x100 * m
    ensures acc + b * m + (0x100 * m) * v == acc + m * (b + 0x100 * v)
  {
    MulBelow(m, b, 0x100);
    Spread(m, b, v);
  }

  lemma {:induction false} OrBytesIsSum(acc: nat, w: nat, bytes: seq<nat>)
    requires acc < Pow2(w) && forall i :: 0 <= i < |bytes| ==> bytes[i] < 0x100
    ensures OrBytes(acc, w, bytes) == acc + Pow2(w) * LE(bytes)
    decreases |bytes|
  {
    hide Or, Pow2;
    if bytes != [] {
      var m, b, rest := Pow2(w), bytes[0], bytes[1..];
      OrDisjoint(acc, b, w);
      Pow2Next8(w);
      JoinByte(acc, m, b, LE(rest));
      OrBytesIsSum(acc + b * m, w + 8, rest);
    }
  }

  function Le32(b: seq<byte>): (r: u32)
    requires |b| == 4
    ensures r == LE(b)
  {
    OrBytesIsSum(b[0], 8, b[1..]);
    LE4(b);
    OrBytes(b[0], 8, b[1..])
  }

  /** `(uint8_t)x, (uint8_t)(x >> 8), ...`: n bytes of x. */
  function ShiftBytes(x: nat, n: nat): (b: seq<byte>)
    ensures |b| == n
  {
    seq(n, i requires 0 <= i < n => (x / Pow2(8 * i)) % 0x100)
  }

  lemma NextByte(x: nat, m: nat)
    requires m > 0
    ensures x % (0x100 * m) == x % m + m * ((x / m) % 0x100)
  {
    var q, r := x / m, x % m;
    assert x == r + q * m;
    CutField(r, q, m, 0x100);
  }

  lemma {:induction false} ShiftBytesValue(x: nat, n: nat)
    ensures LE(ShiftBytes(x, n)) == x % Pow2(8 * n)
  {
    if n == 0 {
    } else {
      var b, k := ShiftBytes(x, n), n - 1;
      var last := b[k];
      assert b == ShiftBytes(x, k) + [last];
      ShiftBytesValue(x, k);
      LEAppend(ShiftBytes(x, k), [last]);
      assert LE([last]) == last;
      Pow2Next8(8 * k);
      NextByte(x, Pow2(8 * k));
    }
  }

  // ---- 32-bit arithmetic ----------------------------------------------------------------

  const W32: nat := 0x1_0000_0000

  function Xor32(a: u32, b: u32): u32 {
    TwoTo32();
    XorBound(a, b, 32);
    Xor(a, b)
  }

  function Add32(a: u32, b: u32): u32 { (a as int + b as int) % W32 }

  lemma DivShrinks(v: nat, m: nat)
    requires m > 0
    ensures 0 <= v / m <= v
  {
    var q := v / m;
    AtMost(q, m);
  }

  lemma AtMost(q: nat, m: nat)
    requires m >= 1
    ensures q <= m * q
  {
    assert (m - 1) * q >= 0;
  }

  /** `(v << n) | (v >> (32 - n))`. */
  function Rotl(v: u32, n: nat): u32
    requires 0 < n < 32
  {
    DivShrinks(v, Pow2(32 - n));
    var hi: u32, lo: u32 := (v as nat * Pow2(n)) % W32, v as nat / Pow2(32 - n);
    TwoTo32();
    OrBound(hi, lo, 32);
    Or(hi, lo)
  }

  function LoadWords(b: seq<byte>): (w: seq<u32>)
    requires |b| % 4 == 0
    ensures |w| == |b| / 4
  {
    if b == [] then [] else [Le32(b[..4])] + LoadWords(b[4..])
  }

  function StoreWords(w: seq<u32>): (b: seq<byte>)
    ensures |b| == 4 * |w|
  {
    if w == [] then [] else StoreWords(w[..|w| - 1]) + ShiftBytes(w[|w| - 1], 4)
  }

  function XorByte(a: byte, b: byte): byte {
    assert Pow2(8) == 0x100;
    XorBound(a, b, 8);
    Xor(a, b)
  }
}
