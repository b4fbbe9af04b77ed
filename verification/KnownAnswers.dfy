/** Published test vectors for the word-level steps of ChaCha20 and BLAKE2s, and where their constants come from. */
module KnownAnswers {
  import opened Words
  import ChaCha20
  import Blake2s
  import Handshake

  // ---- Exclusive-or and rotation of given words -----------------------------------------

  /** Whether a number below 2 w has bit w, and what it is without it. */
  function Top(i: nat, w: nat): nat { if i >= w then 1 else 0 }
  function Below(i: nat, w: nat): nat { if i >= w then i - w else i }
  function Differ(x: nat, y: nat): nat { if x == y then 0 else 1 }

  /** Exclusive-or of two hexadecimal digits, bit by bit. */
  function Digit(i: nat, j: nat): nat {
    var (i3, j3) := (Below(i, 8), Below(j, 8));
    var (i2, j2) := (Below(i3, 4), Below(j3, 4));
    8 * Differ(Top(i, 8), Top(j, 8)) + 4 * Differ(Top(i3, 4), Top(j3, 4)) + 2 * Differ(Top(i2, 2), Top(j2, 2))
    + Differ(Below(i2, 2), Below(j2, 2))
  }

  lemma BitMixed(a: nat, x: nat, b: nat, y: nat)
    requires x < 2 && y < 2
    ensures Xor(2 * a + x, 2 * b + y) == 2 * Xor(a, b) + Differ(x, y)
  {
    assert (2 * a + x) / 2 == a && (2 * b + y) / 2 == b;
    XorHalves(2 * a + x, 2 * b + y);
    hide Xor;
  }

  lemma DigitMixed(a: nat, i: nat, b: nat, j: nat)
    requires i < 16 && j < 16
    ensures Xor(16 * a + i, 16 * b + j) == 16 * Xor(a, b) + Digit(i, j)
  {
    hide Xor;
    var i3, i2, j3, j2 := Below(i, 8), Below(Below(i, 8), 4), Below(j, 8), Below(Below(j, 8), 4);
    var a1, b1 := 2 * a + Top(i, 8), 2 * b + Top(j, 8);
    var a2, b2 := 2 * a1 + Top(i3, 4), 2 * b1 + Top(j3, 4);
    var a3, b3 := 2 * a2 + Top(i2, 2), 2 * b2 + Top(j2, 2);
    BitMixed(a, Top(i, 8), b, Top(j, 8));
    BitMixed(a1, Top(i3, 4), b1, Top(j3, 4));
    BitMixed(a2, Top(i2, 2), b2, Top(j2, 2));
    BitMixed(a3, Below(i2, 2), b3, Below(j2, 2));
    hide Differ;
  }

  function HexDigit(c: char): (d: nat)
    ensures d < 16
  {
    if '0' <= c <= '9' then c as int - '0' as int else if 'a' <= c <= 'f' then c as int - 'a' as int + 10 else 0
  }

  /** The number that eight digits write. */
  function Hex(s: string): (w: u32)
    requires |s| == 8
  {
    0x1000_0000 * HexDigit(s[0]) + 0x100_0000 * HexDigit(s[1]) + 0x10_0000 * HexDigit(s[2]) + 0x1_0000 * HexDigit(s[3])
    + 0x1000 * HexDigit(s[4]) + 0x100 * HexDigit(s[5]) + 0x10 * HexDigit(s[6]) + HexDigit(s[7])
  }

  function MixedDigit(s: string, t: string, i: nat): nat
    requires i < |s| && i < |t|
  {
    Digit(HexDigit(s[i]), HexDigit(t[i]))
  }

  lemma XorHex(s: string, t: string)
    requires |s| == |t| == 8
    ensures Xor(Hex(s), Hex(t)) ==
      0x1000_0000 * MixedDigit(s, t, 0) + 0x100_0000 * MixedDigit(s, t, 1) + 0x10_0000 * MixedDigit(s, t, 2)
      + 0x1_0000 * MixedDigit(s, t, 3) + 0x1000 * MixedDigit(s, t, 4) + 0x100 * MixedDigit(s, t, 5)
      + 0x10 * MixedDigit(s, t, 6) + MixedDigit(s, t, 7)
  {
    NoDigits();
    hide Xor, Digit, HexDigit;
    var x0, y0 := HexDigit(s[0]), HexDigit(t[0]);
    var x1, y1 := 16 * x0 + HexDigit(s[1]), 16 * y0 + HexDigit(t[1]);
    var x2, y2 := 16 * x1 + HexDigit(s[2]), 16 * y1 + HexDigit(t[2]);
    var x3, y3 := 16 * x2 + HexDigit(s[3]), 16 * y2 + HexDigit(t[3]);
    var x4, y4 := 16 * x3 + HexDigit(s[4]), 16 * y3 + HexDigit(t[4]);
    var x5, y5 := 16 * x4 + HexDigit(s[5]), 16 * y4 + HexDigit(t[5]);
    var x6, y6 := 16 * x5 + HexDigit(s[6]), 16 * y5 + HexDigit(t[6]);
    DigitMixed(0, x0, 0, y0);
    DigitMixed(x0, HexDigit(s[1]), y0, HexDigit(t[1]));
    DigitMixed(x1, HexDigit(s[2]), y1, HexDigit(t[2]));
    DigitMixed(x2, HexDigit(s[3]), y2, HexDigit(t[3]));
    DigitMixed(x3, HexDigit(s[4]), y3, HexDigit(t[4]));
    DigitMixed(x4, HexDigit(s[5]), y4, HexDigit(t[5]));
    DigitMixed(x5, HexDigit(s[6]), y5, HexDigit(t[6]));
    DigitMixed(x6, HexDigit(s[7]), y6, HexDigit(t[7]));
  }

  lemma NoDigits()
    ensures Xor(0, 0) == 0
  {
  }

  lemma SmallPowers()
    ensures Pow2(7) == 0x80 && Pow2(8) == 0x100 && Pow2(12) == 0x1000 && Pow2(16) == 0x1_0000 && Pow2(20) == 0x10_0000
    ensures Pow2(24) == 0x100_0000 && Pow2(25) == 0x200_0000
  {
    Pow2Add(8, 4);
    Pow2Add(8, 8);
    Pow2Add(16, 4);
    Pow2Add(16, 8);
    Pow2Add(24, 1);
  }

  /** Rotation moves the upper bits to the lower end. */
  lemma Turned(v: u32, n: nat, m: nat, k: nat)
    requires 0 < n < 32 && m == Pow2(32 - n) && k == Pow2(n) && m > 0 && k > 0 && m * k == W32
    ensures Rotl(v, n) == v % m * k + v / m
  {
    hide Or, Pow2;
    Shifted(v, m, k);
    LowPart(v, m, k);
    OrDisjoint(v / m, v % m, n);
    OrCommutes(v % m * k, v / m);
  }

  lemma Shifted(v: nat, m: nat, k: nat)
    requires m > 0 && k > 0 && m * k == W32
    ensures v * k % W32 == v % m * k
  {
    CutField(0, v, k, m);
  }

  lemma LowPart(v: u32, m: nat, k: nat)
    requires m > 0 && k > 0 && m * k == W32
    ensures v / m < k
  {
    DivTwice(v, m, k);
    assert v / W32 == 0;
    SmallQuotient(v / m, k);
  }

  lemma SmallQuotient(q: nat, k: nat)
    requires k > 0 && q / k == 0
    ensures q < k
  {
  }

  /** Exclusive-or, digit by digit, of what is written in hexadecimal. */
  lemma XorWritten(s: string, t: string, u: string)
    requires |s| == |t| == |u| == 8
    requires forall i :: 0 <= i < 8 ==> HexDigit(u[i]) == MixedDigit(s, t, i)
    ensures Xor32(Hex(s), Hex(t)) == Hex(u)
  {
    hide Xor, MixedDigit, HexDigit;
    XorHex(s, t);
  }

  lemma WrittenAre(s: string, a: u32, t: string, b: u32, u: string, c: u32)
    requires |s| == |t| == |u| == 8 && Hex(s) == a && Hex(t) == b && Hex(u) == c
    ensures Xor32(a, b) == Xor32(Hex(s), Hex(t))
  {
  }

  /** Exclusive-or and rotation by n bits of given words: u is the exclusive-or, cut where it is turned. */
  lemma XorTurn(s: string, t: string, u: string, n: nat, m: nat, k: nat, r: u32)
    requires |s| == |t| == |u| == 8 && Xor32(Hex(s), Hex(t)) == Hex(u)
    requires 0 < n < 32 && m == Pow2(32 - n) && k == Pow2(n) && m * k == W32 && m > 0 && k > 0
    requires r == Hex(u) % m * k + Hex(u) / m
    ensures Rotl(Xor32(Hex(s), Hex(t)), n) == r
  {
    hide Hex, Xor32, Pow2;
    Turned(Hex(u), n, m, k);
  }

  // ---- ChaCha20 -------------------------------------------------------------------------

  /** One quarter round, its eight assignments written out. */
  lemma QuarterBy(x: ChaCha20.Block16, i: nat, j: nat, k: nat, l: nat, a1: u32, d1: u32, c1: u32, b1: u32,
                  a2: u32, d2: u32, c2: u32, b2: u32)
    requires i < 16 && j < 16 && k < 16 && l < 16 && i != j && i != k && i != l && j != k && j != l && k != l
    requires a1 == Add32(x[i], x[j]) && d1 == Rotl(Xor32(x[l], a1), 16)
    requires c1 == Add32(x[k], d1) && b1 == Rotl(Xor32(x[j], c1), 12)
    requires a2 == Add32(a1, b1) && d2 == Rotl(Xor32(d1, a2), 8)
    requires c2 == Add32(c1, d2) && b2 == Rotl(Xor32(b1, c2), 7)
    ensures ChaCha20.QuarterRound(x, i, j, k, l) == x[i := a2][l := d2][k := c2][j := b2]
  {
    hide Rotl, Xor32, Add32;
  }

  lemma QuarterTurn1()
    ensures Rotl(Xor32(0x01234567, 0x12131415), 16) == 0x51721330
  {
    hide Xor, Xor32, Rotl;
    XorWritten("01234567", "12131415", "13305172");
    WrittenAre("01234567", 0x01234567, "12131415", 0x12131415, "13305172", 0x13305172);
    SmallPowers();
    XorTurn("01234567", "12131415", "13305172", 16, 0x1_0000, 0x1_0000, 0x51721330);
  }

  lemma QuarterTurn2()
    ensures Rotl(Xor32(0x01020304, 0xecff8273), 12) == 0xd8177edf
  {
    hide Xor, Xor32, Rotl;
    XorWritten("01020304", "ecff8273", "edfd8177");
    WrittenAre("01020304", 0x01020304, "ecff8273", 0xecff8273, "edfd8177", 0xedfd8177);
    SmallPowers();
    XorTurn("01020304", "ecff8273", "edfd8177", 12, 0x10_0000, 0x1000, 0xd8177edf);
  }

  lemma QuarterTurn3()
    ensures Rotl(Xor32(0x51721330, 0xea2a92f4), 8) == 0x5881c4bb
  {
    hide Xor, Xor32, Rotl;
    XorWritten("51721330", "ea2a92f4", "bb5881c4");
    WrittenAre("51721330", 0x51721330, "ea2a92f4", 0xea2a92f4, "bb5881c4", 0xbb5881c4);
    SmallPowers();
    XorTurn("51721330", "ea2a92f4", "bb5881c4", 8, 0x100_0000, 0x100, 0x5881c4bb);
  }

  lemma QuarterTurn4()
    ensures Rotl(Xor32(0xd8177edf, 0x4581472e), 7) == 0xcb1cf8ce
  {
    hide Xor, Xor32, Rotl;
    XorWritten("d8177edf", "4581472e", "9d9639f1");
    WrittenAre("d8177edf", 0xd8177edf, "4581472e", 0x4581472e, "9d9639f1", 0x9d9639f1);
    SmallPowers();
    XorTurn("d8177edf", "4581472e", "9d9639f1", 7, 0x200_0000, 0x80, 0xcb1cf8ce);
  }

  /** Section 2.1.1 of RFC 8439. */
  lemma QuarterRoundVector(rest: seq<u32>)
    requires |rest| == 12
    ensures ChaCha20.QuarterRound([0x11111111, 0x01020304, 0x9b8d6f43, 0x01234567] + rest, 0, 1, 2, 3) ==
      [0xea2a92f4, 0xcb1cf8ce, 0x4581472e, 0x5881c4bb] + rest
  {
    hide Rotl, Xor32, ChaCha20.QuarterRound;
    QuarterTurn1();
    QuarterTurn2();
    QuarterTurn3();
    QuarterTurn4();
    var x: ChaCha20.Block16 := [0x11111111, 0x01020304, 0x9b8d6f43, 0x01234567] + rest;
    QuarterBy(x, 0, 1, 2, 3, 0x12131415, 0x51721330, 0xecff8273, 0xd8177edf, 0xea2a92f4, 0x5881c4bb, 0x4581472e, 0xcb1cf8ce);
  }

  /** The state as a matrix of four rows, row i turned left by i: its columns are the diagonals. */
  function Skewed(x: ChaCha20.Block16): ChaCha20.Block16 {
    [x[0], x[1], x[2], x[3], x[5], x[6], x[7], x[4], x[10], x[11], x[8], x[9], x[15], x[12], x[13], x[14]]
  }

  function Columns(x: ChaCha20.Block16): ChaCha20.Block16 {
    var x := ChaCha20.QuarterRound(x, 0, 4, 8, 12);
    var x := ChaCha20.QuarterRound(x, 1, 5, 9, 13);
    var x := ChaCha20.QuarterRound(x, 2, 6, 10, 14);
    ChaCha20.QuarterRound(x, 3, 7, 11, 15)
  }

  lemma QuarterWords(x: ChaCha20.Block16, i: nat, j: nat, k: nat, l: nat, y: ChaCha20.Block16, i': nat, j': nat,
                     k': nat, l': nat)
    requires i < 16 && j < 16 && k < 16 && l < 16 && i != j && i != k && i != l && j != k && j != l && k != l
    requires i' < 16 && j' < 16 && k' < 16 && l' < 16 && i' != j' && i' != k' && i' != l' && j' != k' && j' != l' && k' != l'
    requires x[i] == y[i'] && x[j] == y[j'] && x[k] == y[k'] && x[l] == y[l']
    ensures var r, t := ChaCha20.QuarterRound(x, i, j, k, l), ChaCha20.QuarterRound(y, i', j', k', l');
      && r == x[i := t[i']][j := t[j']][k := t[k']][l := t[l']]
      && t == y[i' := t[i']][j' := t[j']][k' := t[k']][l' := t[l']]
  {
    hide Rotl, Xor32, Add32;
    var a1 := Add32(x[i], x[j]);
    var d1 := Rotl(Xor32(x[l], a1), 16);
    var c1 := Add32(x[k], d1);
    var b1 := Rotl(Xor32(x[j], c1), 12);
    var a2 := Add32(a1, b1);
    var d2 := Rotl(Xor32(d1, a2), 8);
    var c2 := Add32(c1, d2);
    var b2 := Rotl(Xor32(b1, c2), 7);
    hide ChaCha20.QuarterRound;
    QuarterBy(x, i, j, k, l, a1, d1, c1, b1, a2, d2, c2, b2);
    QuarterBy(y, i', j', k', l', a1, d1, c1, b1, a2, d2, c2, b2);
  }

  /** Section 2.3 of RFC 8439: a double round is a round over the columns and one over the diagonals. */
  lemma DoubleRoundIs(x: ChaCha20.Block16)
    ensures Skewed(ChaCha20.DoubleRound(x)) == Columns(Skewed(Columns(x)))
  {
    var y := Columns(x);
    var y1 := ChaCha20.QuarterRound(y, 0, 5, 10, 15);
    var y2 := ChaCha20.QuarterRound(y1, 1, 6, 11, 12);
    var y3 := ChaCha20.QuarterRound(y2, 2, 7, 8, 13);
    var y4 := ChaCha20.QuarterRound(y3, 3, 4, 9, 14);
    assert ChaCha20.DoubleRound(x) == y4 by { hide ChaCha20.QuarterRound; }
    hide ChaCha20.QuarterRound, ChaCha20.DoubleRound;
    SkewedStep(y, 0, 5, 10, 15, 0);
    SkewedStep(y1, 1, 6, 11, 12, 1);
    SkewedStep(y2, 2, 7, 8, 13, 2);
    SkewedStep(y3, 3, 4, 9, 14, 3);
    hide Skewed;
  }

  /** A quarter round on a diagonal is one on a column of the skewed matrix. */
  lemma SkewedStep(y: ChaCha20.Block16, i: nat, j: nat, k: nat, l: nat, n: nat)
    requires (n, i, j, k, l) in {(0, 0, 5, 10, 15), (1, 1, 6, 11, 12), (2, 2, 7, 8, 13), (3, 3, 4, 9, 14)}
    ensures ChaCha20.QuarterRound(Skewed(y), n, 4 + n, 8 + n, 12 + n) == Skewed(ChaCha20.QuarterRound(y, i, j, k, l))
  {
    hide ChaCha20.QuarterRound;
    QuarterWords(Skewed(y), n, 4 + n, 8 + n, 12 + n, y, i, j, k, l);
  }

  function TwoRounds(x: ChaCha20.Block16): ChaCha20.Block16 { ChaCha20.DoubleRound(x) }

  function FourRounds(x: ChaCha20.Block16): ChaCha20.Block16 { TwoRounds(TwoRounds(x)) }

  lemma {:induction false} StoredWord(w: seq<u32>, i: nat)
    requires i < |w|
    ensures StoreWords(w)[4 * i..4 * i + 4] == ShiftBytes(w[i], 4)
    decreases |w|
  {
    hide ShiftBytes;
    var k := |w| - 1;
    var front, b := StoreWords(w[..k]), StoreWords(w);
    assert b == front + ShiftBytes(w[k], 4);
    if i < k {
      StoredWord(w[..k], i);
      assert b[4 * i..4 * i + 4] == front[4 * i..4 * i + 4];
    }
  }

  /** Word i of a block: twenty rounds, the input added, in little-endian bytes. */
  lemma BlockWord(x: ChaCha20.Block16, i: nat)
    requires i < 16
    ensures var r := FourRounds(FourRounds(FourRounds(FourRounds(FourRounds(x)))));
      ChaCha20.BlockBytes(x)[4 * i..4 * i + 4] == ShiftBytes(Add32(r[i], x[i]), 4)
  {
    hide ChaCha20.DoubleRound, ShiftBytes, StoreWords;
    RoundsTwice(x, 0);
    RoundsTwice(x, 2);
    RoundsTwice(x, 4);
    RoundsTwice(x, 6);
    RoundsTwice(x, 8);
    assert ChaCha20.Rounds(x, 0) == x;
    hide ChaCha20.Rounds, FourRounds;
    StoredWord(ChaCha20.AddWords(ChaCha20.Rounds(x, 10), x), i);
  }

  lemma RoundsTwice(x: ChaCha20.Block16, n: nat)
    ensures ChaCha20.Rounds(x, n + 2) == FourRounds(ChaCha20.Rounds(x, n))
  {
    hide ChaCha20.DoubleRound;
    assert ChaCha20.Rounds(x, n + 1) == TwoRounds(ChaCha20.Rounds(x, n));
  }

  lemma WordOf(t: string, w: u32)
    requires |t| == 4 && t[0] < 'z' && t[1] < 'z' && t[2] < 'z' && t[3] < 'z'
    requires w == t[0] as int + 0x100 * (t[1] as int) + 0x1_0000 * (t[2] as int) + 0x100_0000 * (t[3] as int)
    ensures LE(Handshake.Text(t)) == w
  {
    var b := Handshake.Text(t);
    hide LE;
    LE4(b);
    assert b[0] == t[0] as int && b[1] == t[1] as int && b[2] == t[2] as int && b[3] == t[3] as int;
    hide Handshake.Text;
  }

  /** The constants of the state spell "expand 32-byte k"; key, counter and nonce follow. */
  lemma StateIs(key: seq<byte>, nonce: seq<byte>, ctr: u32)
    requires |key| == 32 && |nonce| == 12
    ensures var s := ChaCha20.InitialState(key, nonce, ctr);
      && s[0] == LE(Handshake.Text("expa")) && s[1] == LE(Handshake.Text("nd 3"))
      && s[2] == LE(Handshake.Text("2-by")) && s[3] == LE(Handshake.Text("te k"))
      && s[4..12] == LoadWords(key) && s[12] == ctr && s[13..] == LoadWords(nonce)
  {
    hide LE, Handshake.Text, LoadWords;
    WordOf("expa", 0x61707865);
    WordOf("nd 3", 0x3320646e);
    WordOf("2-by", 0x79622d32);
    WordOf("te k", 0x6b206574);
  }

  // ---- BLAKE2s --------------------------------------------------------------------------

  const PRIMES: seq<nat> := [2, 3, 5, 7, 11, 13, 17, 19]
  const ROOTS: seq<nat> := [1, 1, 2, 2, 3, 3, 4, 4]

  /** Section 2.6 of RFC 7693: the first 32 bits of the fractional parts of the square roots of the first
      eight primes. */
  lemma IvIsRoots(i: nat)
    requires i < 8
    ensures var root := ROOTS[i] * W32 + Blake2s.IV[i];
      root * root <= PRIMES[i] * W32 * W32 < (root + 1) * (root + 1)
  {
  }

  lemma StartWord()
    ensures Xor32(0x6a09e667, 0x01010020) == 0x6b08e647
  {
    hide Xor, Xor32;
    XorWritten("6a09e667", "01010020", "6b08e647");
    WrittenAre("6a09e667", 0x6a09e667, "01010020", 0x01010020, "6b08e647", 0x6b08e647);
  }

  lemma CountWord()
    ensures Xor32(0x510e527f, 3) == 0x510e527c
  {
    hide Xor, Xor32;
    XorWritten("510e527f", "00000003", "510e527c");
    WrittenAre("510e527f", 0x510e527f, "00000003", 0x00000003, "510e527c", 0x510e527c);
  }

  lemma HighWord()
    ensures Xor32(0x9b05688c, 0) == 0x9b05688c
  {
    hide Xor, Xor32;
    XorWritten("9b05688c", "00000000", "9b05688c");
    WrittenAre("9b05688c", 0x9b05688c, "00000000", 0x00000000, "9b05688c", 0x9b05688c);
  }

  lemma FinalWord()
    ensures Xor32(0x1f83d9ab, 0xffffffff) == 0xe07c2654
  {
    hide Xor, Xor32;
    XorWritten("1f83d9ab", "ffffffff", "e07c2654");
    WrittenAre("1f83d9ab", 0x1f83d9ab, "ffffffff", 0xffffffff, "e07c2654", 0xe07c2654);
  }

  lemma LastWord()
    ensures Xor32(0x5be0cd19, 0) == 0x5be0cd19
  {
    hide Xor, Xor32;
    XorWritten("5be0cd19", "00000000", "5be0cd19");
    WrittenAre("5be0cd19", 0x5be0cd19, "00000000", 0x00000000, "5be0cd19", 0x5be0cd19);
  }

  /** The work vector at the start of the example in appendix B of RFC 7693: three bytes, in one last block. */
  lemma WorkVectorIs()
    ensures Blake2s.WorkVector(Blake2s.StartFrom(32, 0), 3, Blake2s.FINAL) == [
      0x6b08e647, 0xbb67ae85, 0x3c6ef372, 0xa54ff53a, 0x510e527f, 0x9b05688c, 0x1f83d9ab, 0x5be0cd19,
      0x6a09e667, 0xbb67ae85, 0x3c6ef372, 0xa54ff53a, 0x510e527c, 0x9b05688c, 0xe07c2654, 0x5be0cd19]
  {
    hide Xor, Xor32;
    StartWord();
    CountWord();
    HighWord();
    FinalWord();
    LastWord();
  }

  /** One call of the mixing function, its eight assignments written out; rotation to the left by 32 - n is
      rotation to the right by n. */
  lemma MixBy(v: Blake2s.Words16, i: nat, j: nat, k: nat, l: nat, x: u32, y: u32,
              a1: u32, d1: u32, c1: u32, b1: u32, a2: u32, d2: u32, c2: u32, b2: u32)
    requires i < 16 && j < 16 && k < 16 && l < 16 && i != j && i != k && i != l && j != k && j != l && k != l
    requires a1 == (v[i] + v[j] + x) % W32 && d1 == Rotl(Xor32(v[l], a1), 16)
    requires c1 == Add32(v[k], d1) && b1 == Rotl(Xor32(v[j], c1), 20)
    requires a2 == (a1 + b1 + y) % W32 && d2 == Rotl(Xor32(d1, a2), 24)
    requires c2 == Add32(c1, d2) && b2 == Rotl(Xor32(b1, c2), 25)
    ensures Blake2s.G(v, i, j, k, l, x, y) == v[i := a2][l := d2][k := c2][j := b2]
  {
    hide Rotl, Xor32, Add32;
    AddThree(v[i], v[j], x);
    AddThree(a1, b1, y);
  }

  lemma AddThree(a: u32, b: u32, c: u32)
    ensures Add32(a, Add32(b, c)) == (a + b + c) % W32
  {
  }

  lemma MixTurn1()
    ensures Rotl(Xor32(0x510e527c, 0xbc7a9b27), 16) == 0xc95bed74
  {
    hide Xor, Xor32, Rotl;
    XorWritten("510e527c", "bc7a9b27", "ed74c95b");
    WrittenAre("510e527c", 0x510e527c, "bc7a9b27", 0xbc7a9b27, "ed74c95b", 0xed74c95b);
    SmallPowers();
    XorTurn("510e527c", "bc7a9b27", "ed74c95b", 16, 0x1_0000, 0x1_0000, 0xc95bed74);
  }

  lemma MixTurn2()
    ensures Rotl(Xor32(0x510e527f, 0x3365d3db), 20) == 0x1a4626b8
  {
    hide Xor, Xor32, Rotl;
    XorWritten("510e527f", "3365d3db", "626b81a4");
    WrittenAre("510e527f", 0x510e527f, "3365d3db", 0x3365d3db, "626b81a4", 0x626b81a4);
    SmallPowers();
    XorTurn("510e527f", "3365d3db", "626b81a4", 20, 0x1000, 0x10_0000, 0x1a4626b8);
  }

  lemma MixTurn3()
    ensures Rotl(Xor32(0xc95bed74, 0xd6c0c1df), 24) == 0xab1f9b2c
  {
    hide Xor, Xor32, Rotl;
    XorWritten("c95bed74", "d6c0c1df", "1f9b2cab");
    WrittenAre("c95bed74", 0xc95bed74, "d6c0c1df", 0xd6c0c1df, "1f9b2cab", 0x1f9b2cab);
    SmallPowers();
    XorTurn("c95bed74", "d6c0c1df", "1f9b2cab", 24, 0x100, 0x100_0000, 0xab1f9b2c);
  }

  lemma MixTurn4()
    ensures Rotl(Xor32(0x1a4626b8, 0xde856f07), 25) == 0x7f898693
  {
    hide Xor, Xor32, Rotl;
    XorWritten("1a4626b8", "de856f07", "c4c349bf");
    WrittenAre("1a4626b8", 0x1a4626b8, "de856f07", 0xde856f07, "c4c349bf", 0xc4c349bf);
    SmallPowers();
    XorTurn("1a4626b8", "de856f07", "c4c349bf", 25, 0x80, 0x200_0000, 0x7f898693);
  }

  /** The first step of the example in appendix B of RFC 7693, the hash of "abc". */
  lemma MixVector(v: Blake2s.Words16)
    requires v[0] == 0x6b08e647 && v[4] == 0x510e527f && v[8] == 0x6a09e667 && v[12] == 0x510e527c
    ensures Blake2s.G(v, 0, 4, 8, 12, 0x00636261, 0) ==
      v[0 := 0xd6c0c1df][12 := 0xab1f9b2c][8 := 0xde856f07][4 := 0x7f898693]
  {
    hide Rotl, Xor32, Blake2s.G;
    MixTurn1();
    MixTurn2();
    MixTurn3();
    MixTurn4();
    MixBy(v, 0, 4, 8, 12, 0x00636261, 0, 0xbc7a9b27, 0xc95bed74, 0x3365d3db, 0x1a4626b8, 0xd6c0c1df, 0xab1f9b2c, 0xde856f07, 0x7f898693);
  }
}
