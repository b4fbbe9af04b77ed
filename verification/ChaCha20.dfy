/** ChaCha20 as section 2 of RFC 8439 defines it: the block function and the keystream. */
module ChaCha20 {
  import opened Words

  type Block16 = s: seq<u32> | |s| == 16 witness seq(16, _ => 0)

  function QuarterRound(x: Block16, a: nat, b: nat, c: nat, d: nat): Block16
    requires a < 16 && b < 16 && c < 16 && d < 16
  {
    var x := x[a := Add32(x[a], x[b])];
    var x := x[d := Rotl(Xor32(x[d], x[a]), 16)];
    var x := x[c := Add32(x[c], x[d])];
    var x := x[b := Rotl(Xor32(x[b], x[c]), 12)];
    var x := x[a := Add32(x[a], x[b])];
    var x := x[d := Rotl(Xor32(x[d], x[a]), 8)];
    var x := x[c := Add32(x[c], x[d])];
    x[b := Rotl(Xor32(x[b], x[c]), 7)]
  }

  function DoubleRound(x: Block16): Block16 {
    var x := QuarterRound(x, 0, 4, 8, 12);
    var x := QuarterRound(x, 1, 5, 9, 13);
    var x := QuarterRound(x, 2, 6, 10, 14);
    var x := QuarterRound(x, 3, 7, 11, 15);
    var x := QuarterRound(x, 0, 5, 10, 15);
    var x := QuarterRound(x, 1, 6, 11, 12);
    var x := QuarterRound(x, 2, 7, 8, 13);
    QuarterRound(x, 3, 4, 9, 14)
  }

  function Rounds(x: Block16, n: nat): Block16
    decreases n, x
  {
    if n == 0 then x else DoubleRound(Rounds(x, n - 1))
  }

  function AddWords(x: Block16, y: Block16): Block16 {
    seq(16, i requires 0 <= i < 16 => Add32(x[i], y[i]))
  }

  function BlockBytes(input: Block16): (out: seq<byte>)
    ensures |out| == 64
  {
    StoreWords(AddWords(Rounds(input, 10), input))
  }

  function InitialState(key: seq<byte>, nonce: seq<byte>, ctr: u32): Block16
    requires |key| == 32 && |nonce| == 12
  {
    [0x61707865, 0x3320646e, 0x79622d32, 0x6b206574] + LoadWords(key) + [ctr] + LoadWords(nonce)
  }

  /** Byte i of the stream whose first block has counter ctr; the counter is a 32-bit word. */
  function KeystreamByte(key: seq<byte>, nonce: seq<byte>, ctr: u32, i: nat): byte
    requires |key| == 32 && |nonce| == 12
  {
    BlockBytes(InitialState(key, nonce, (ctr as int + i / 64) % W32))[i % 64]
  }

  function XorStream(s: seq<byte>, key: seq<byte>, nonce: seq<byte>, ctr: u32): (r: seq<byte>)
    requires |key| == 32 && |nonce| == 12
    ensures |r| == |s|
  {
    seq(|s|, i requires 0 <= i < |s| => XorByte(s[i], KeystreamByte(key, nonce, ctr, i)))
  }

  /** Encrypting twice gives back the input. */
  lemma XorStreamInvolutive(s: seq<byte>, key: seq<byte>, nonce: seq<byte>, ctr: u32)
    requires |key| == 32 && |nonce| == 12
    ensures XorStream(XorStream(s, key, nonce, ctr), key, nonce, ctr) == s
  {
    var t := XorStream(s, key, nonce, ctr);
    forall i | 0 <= i < |s| ensures XorStream(t, key, nonce, ctr)[i] == s[i] {
      var k := KeystreamByte(key, nonce, ctr, i);
      XorCommutes(s[i], k);
      XorCommutes(t[i], k);
      XorCancels(k, s[i]);
    }
  }

  /** The block function with its loops, on a working copy of the state. */
  method ChaChaBlock(input: Block16) returns (out: seq<byte>)
    ensures out == BlockBytes(input)
  {
    hide DoubleRound, Add32;
    var x := input;
    for i := 0 to 10
      invariant x == Rounds(input, i)
    {
      x := DoubleRound(x);
    }
    ghost var sum := AddWords(x, input);
    out := [];
    for i := 0 to 16
      invariant out == StoreWords(sum[..i])
    {
      out := out + ShiftBytes(Add32(x[i], input[i]), 4);
      assert sum[..i + 1][..i] == sum[..i];
    }
    assert sum[..16] == sum;
  }

  /** One block of keystream over buf[at..at + n]. */
  method XorBlock(buf: array<byte>, at: nat, n: nat, block: seq<byte>)
    requires n <= 64 && |block| == 64 && at + n <= buf.Length
    modifies buf
    ensures forall j :: 0 <= j < n ==> buf[at + j] == XorByte(old(buf[at + j]), block[j])
    ensures forall k :: 0 <= k < buf.Length && !(at <= k < at + n) ==> buf[k] == old(buf[k])
  {
    hide XorByte;
    for i := 0 to n
      invariant forall j :: 0 <= j < i ==> buf[at + j] == XorByte(old(buf[at + j]), block[j])
      invariant forall k :: 0 <= k < buf.Length && !(at <= k < at + i) ==> buf[k] == old(buf[k])
    {
      buf[at + i] := XorByte(buf[at + i], block[i]);
    }
  }

  /** XORs `len` bytes of keystream into buf[off..], a block at a time, counting blocks in 32 bits. */
  method ChaChaXor(buf: array<byte>, off: nat, len: nat, key: seq<byte>, nonce: seq<byte>, ctr0: u32)
    requires off + len <= buf.Length && |key| == 32 && |nonce| == 12
    modifies buf
    ensures buf[..] == old(buf[..off]) + XorStream(old(buf[off..off + len]), key, nonce, ctr0) + old(buf[off + len..])
  {
    hide BlockBytes, InitialState, XorByte, Add32;
    var state := InitialState(key, nonce, ctr0);
    ghost var blocks: nat := 0;
    var at: nat := 0;
    CounterStep(key, nonce, ctr0, 0);
    while at < len
      invariant at <= len && (at == 64 * blocks || at == len)
      invariant at < len ==> state == InitialState(key, nonce, (ctr0 as int + blocks) % W32)
      invariant forall j :: 0 <= j < at ==> buf[off + j] == XorByte(old(buf[off + j]), KeystreamByte(key, nonce, ctr0, j))
      invariant forall k :: 0 <= k < buf.Length && !(off <= k < off + at) ==> buf[k] == old(buf[k])
    {
      var block := ChaChaBlock(state);
      var n := if len - at < 64 then len - at else 64;
      XorBlock(buf, off + at, n, block);
      forall j | at <= j < at + n
        ensures buf[off + j] == XorByte(old(buf[off + j]), KeystreamByte(key, nonce, ctr0, j))
      {
        assert j / 64 == blocks && j % 64 == j - at;
        assert buf[off + at + (j - at)] == buf[off + j];
      }
      CounterStep(key, nonce, ctr0, blocks);
      state := state[12 := Add32(state[12], 1)];
      at := at + n;
      blocks := blocks + 1;
    }
  }

  lemma CounterStep(key: seq<byte>, nonce: seq<byte>, ctr0: u32, blocks: nat)
    requires |key| == 32 && |nonce| == 12
    ensures var s := InitialState(key, nonce, (ctr0 as int + blocks) % W32);
      s[12] == (ctr0 as int + blocks) % W32 && s[12 := Add32(s[12], 1)] == InitialState(key, nonce, (ctr0 as int + (blocks + 1)) % W32)
    ensures ctr0 as int % W32 == ctr0
  {
    hide LoadWords;
  }
}
