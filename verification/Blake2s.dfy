/** BLAKE2s as RFC 7693 defines it, and the streaming state that computes it. */
module Blake2s {
  import opened Words

  type Words8 = s: seq<u32> | |s| == 8 witness seq(8, _ => 0)
  type Words16 = s: seq<u32> | |s| == 16 witness seq(16, _ => 0)

  const IV: Words8 := [
    0x6A09E667, 0xBB67AE85, 0x3C6EF372, 0xA54FF53A, 0x510E527F, 0x9B05688C, 0x1F83D9AB, 0x5BE0CD19
  ]

  type Schedule = s: seq<nat> | |s| == 16 && forall i :: 0 <= i < 16 ==> s[i] < 16 witness seq(16, _ => 0)

  // Section 2.7 of RFC 7693: the message schedule.
  const S0: Schedule := [0, 1, 2, 3, 4, 5, 6, 7, 8, 9, 10, 11, 12, 13, 14, 15]
  const S1: Schedule := [14, 10, 4, 8, 9, 15, 13, 6, 1, 12, 0, 2, 11, 7, 5, 3]
  const S2: Schedule := [11, 8, 12, 0, 5, 2, 15, 13, 10, 14, 3, 6, 7, 1, 9, 4]
  const S3: Schedule := [7, 9, 3, 1, 13, 12, 11, 14, 2, 6, 5, 10, 4, 0, 15, 8]
  const S4: Schedule := [9, 0, 5, 7, 2, 4, 10, 15, 14, 1, 11, 12, 6, 8, 3, 13]
  const S5: Schedule := [2, 12, 6, 10, 0, 11, 8, 3, 4, 13, 7, 5, 15, 14, 1, 9]
  const S6: Schedule := [12, 5, 1, 15, 14, 13, 4, 10, 0, 7, 6, 3, 9, 2, 8, 11]
  const S7: Schedule := [13, 11, 7, 14, 12, 1, 3, 9, 5, 0, 15, 4, 8, 6, 2, 10]
  const S8: Schedule := [6, 15, 14, 9, 11, 3, 0, 8, 12, 2, 13, 7, 1, 4, 10, 5]
  const S9: Schedule := [10, 2, 8, 4, 7, 6, 1, 5, 15, 11, 9, 14, 3, 12, 13, 0]

  function Sigma(r: nat): Schedule
    requires r < 10
  {
    match r {
      case 0 => S0
      case 1 => S1
      case 2 => S2
      case 3 => S3
      case 4 => S4
      case 5 => S5
      case 6 => S6
      case 7 => S7
      case 8 => S8
      case _ => S9
    }
  }

  /** Section 3.1 of RFC 7693: the mixing function, rotating right by 16, 12, 8 and 7. */
  function G(v: Words16, a: nat, b: nat, c: nat, d: nat, x: u32, y: u32): Words16
    requires a < 16 && b < 16 && c < 16 && d < 16
  {
    var v := v[a := Add32(v[a], Add32(v[b], x))];
    var v := v[d := Rotl(Xor32(v[d], v[a]), 16)];
    var v := v[c := Add32(v[c], v[d])];
    var v := v[b := Rotl(Xor32(v[b], v[c]), 20)];
    var v := v[a := Add32(v[a], Add32(v[b], y))];
    var v := v[d := Rotl(Xor32(v[d], v[a]), 24)];
    var v := v[c := Add32(v[c], v[d])];
    v[b := Rotl(Xor32(v[b], v[c]), 25)]
  }

  function Round(v: Words16, m: Words16, s: Schedule): Words16 {
    hide G;
    var v := G(v, 0, 4, 8, 12, m[s[0]], m[s[1]]);
    var v := G(v, 1, 5, 9, 13, m[s[2]], m[s[3]]);
    var v := G(v, 2, 6, 10, 14, m[s[4]], m[s[5]]);
    var v := G(v, 3, 7, 11, 15, m[s[6]], m[s[7]]);
    var v := G(v, 0, 5, 10, 15, m[s[8]], m[s[9]]);
    var v := G(v, 1, 6, 11, 12, m[s[10]], m[s[11]]);
    var v := G(v, 2, 7, 8, 13, m[s[12]], m[s[13]]);
    G(v, 3, 4, 9, 14, m[s[14]], m[s[15]])
  }

  function Rounds(v: Words16, m: Words16, n: nat): Words16
    requires n <= 10
    decreases n, v
  {
    if n == 0 then v else Round(Rounds(v, m, n - 1), m, Sigma(n - 1))
  }

  /** The initial work vector: chaining value, IV, byte offset and finalization word. */
  function WorkVector(h: Words8, t: nat, f: u32): Words16 {
    h + IV[..4] + [Xor32(IV[4], t % W32), Xor32(IV[5], (t / W32) % W32), Xor32(IV[6], f), Xor32(IV[7], 0)]
  }

  function Fold(h: Words8, v: Words16): Words8 {
    seq(8, i requires 0 <= i < 8 => Xor32(h[i], Xor32(v[i], v[i + 8])))
  }

  const FINAL: u32 := 0xffff_ffff

  /** Section 3.2 of RFC 7693: the compression function F; the offset counter is 64 bits wide. */
  function F(h: Words8, block: seq<byte>, t: nat, f: u32): Words8
    requires |block| == 64
  {
    Fold(h, Rounds(WorkVector(h, t, f), LoadWords(block), 10))
  }

  /** Chaining value after n full blocks none of which is the last. */
  function Chain(h: Words8, data: seq<byte>, n: nat): Words8
    requires |data| == 64 * n
    decreases n, data
  {
    if n == 0 then h
    else F(Chain(h, data[..64 * (n - 1)], n - 1), data[64 * (n - 1)..], 64 * n, 0)
  }

  /** How many blocks of n bytes come before the last block; a full last block is kept back. */
  function Held(n: nat): (k: nat)
    ensures 64 * k <= n <= 64 * k + 64 && (n > 0 ==> 64 * k < n)
  {
    if n == 0 then 0 else (n - 1) / 64
  }

  lemma HeldIs(n: nat, k: nat)
    requires 64 * k <= n <= 64 * k + 64 && (n > 0 ==> 64 * k < n)
    ensures k == Held(n)
  {
  }

  lemma Split(d: seq<byte>, m: seq<byte>, k: nat)
    requires k <= |m|
    ensures d + m[..k] + m[k..] == d + m
  {
    assert m == m[..k] + m[k..];
  }

  function PadBlock(b: seq<byte>): (r: seq<byte>)
    requires |b| <= 64
    ensures |r| == 64
  {
    b + Zeros(64 - |b|)
  }

  function StartFrom(outlen: nat, keylen: nat): Words8
    requires outlen < 256 && keylen < 256
  {
    IV[0 := Xor32(IV[0], 0x0101_0000 + keylen * 0x100 + outlen)]
  }

  /** Section 3.3 of RFC 7693 from the chaining value h on, all data at once. */
  function Digest(h: Words8, data: seq<byte>): Words8 {
    var k := Held(|data|);
    F(Chain(h, data[..64 * k], k), PadBlock(data[64 * k..]), |data|, FINAL)
  }

  /** Section 3.3 of RFC 7693: a key is put in front of the message as a block of its own. */
  function Hash(outlen: nat, key: seq<byte>, message: seq<byte>): (r: seq<byte>)
    requires outlen <= 32 && |key| <= 64
    ensures |r| == outlen
  {
    var data := if key == [] then message else PadBlock(key) + message;
    StoreWords(Digest(StartFrom(outlen, |key|), data))[..outlen]
  }

  lemma ChainStep(h: Words8, data: seq<byte>, n: nat, block: seq<byte>)
    requires |data| == 64 * n && |block| == 64
    ensures Chain(h, data + block, n + 1) == F(Chain(h, data, n), block, 64 * n + 64, 0)
  {
    hide F;
    var d := data + block;
    assert d[..64 * n] == data && d[64 * n..] == block;
  }

  /** `0x01010000 | keylen << 8 | outlen`. */
  lemma ParameterWord(outlen: nat, keylen: nat)
    requires outlen < 256 && keylen < 256
    ensures Or(Or(0x0101_0000, keylen * 0x100), outlen) == 0x0101_0000 + keylen * 0x100 + outlen
    ensures Or(0x0101_0000, outlen) == 0x0101_0000 + outlen
  {
    hide Or;
    assert Pow2(8) == 0x100;
    Pow2Next8(8);
    OrCommutes(0x0101_0000, keylen * 0x100);
    OrDisjoint(keylen * 0x100, 0x0101, 16);
    OrCommutes(0x0101_0000 + keylen * 0x100, outlen);
    OrDisjoint(outlen, 0x01_0100 + keylen, 8);
    OrCommutes(0x0101_0000, outlen);
    OrDisjoint(outlen, 0x01_0100, 8);
  }

  /** The two counter words hold t modulo 2^64. */
  predicate Counts(t0: u32, t1: u32, t: int) {
    t0 == t % W32 && t1 == (t / W32) % W32
  }

  lemma CounterStep(t0: u32, t1: u32, t: nat, inc: u32)
    requires Counts(t0, t1, t)
    ensures var low := Add32(t0, inc); Counts(low, Add32(t1, if low < inc then 1 else 0), t + inc)
  {
    var q := t / W32;
    var carry := if t0 + inc < W32 then 0 else 1;
    ModUnique(t + inc, W32, q + carry, t0 + inc - W32 * carry);
    ModUnique(t0 + inc, W32, carry, t0 + inc - W32 * carry);
    ModUnique(q, W32, q / W32, t1);
  }

  /** n consecutive compressions, each of which first moves the counter on by inc. */
  function Steps(h: Words8, m: seq<byte>, n: nat, t: nat, inc: nat, f: u32): Words8
    requires |m| == 64 * n
    decreases n, m
  {
    if n == 0 then h
    else Steps(F(h, m[..64], t + inc, f), m[64..], n - 1, t + inc, inc, f)
  }

  lemma {:induction false} ChainSteps(h: Words8, data: seq<byte>, k: nat, m: seq<byte>, n: nat)
    requires |data| == 64 * k && |m| == 64 * n
    ensures Steps(Chain(h, data, k), m, n, 64 * k, 64, 0) == Chain(h, data + m, k + n)
    decreases n
  {
    hide F, Chain;
    if n == 0 {
      assert data + m == data;
    } else {
      var first, rest := m[..64], m[64..];
      ChainStep(h, data, k, first);
      ChainSteps(h, data + first, k + 1, rest, n - 1);
      assert data + m == data + first + rest;
    }
  }

  class State {
    const h: array<u32>
    var t0: u32
    var t1: u32
    var f0: u32
    var f1: u32
    const buf: array<byte>
    var buflen: nat
    const outlen: nat
    ghost const start: Words8
    ghost var data: seq<byte>
    ghost var chained: nat

    /** The first `chained` blocks of `data` are in `h` and counted; the rest of it is in `buf`. */
    ghost predicate Tracks()
      reads this, h, buf
    {
      && h.Length == 8 && buf.Length == 64 && outlen <= 32
      && buflen <= 64 && |data| == 64 * chained + buflen
      && buf[..buflen] == data[64 * chained..]
      && h[..] == Chain(start, data[..64 * chained], chained)
      && Counts(t0, t1, 64 * chained)
      && f0 == 0 && f1 == 0
    }

    /** Between calls there is always a last block kept back. */
    ghost predicate Valid()
      reads this, h, buf
    {
      Tracks() && (data != [] ==> buflen > 0)
    }

    constructor Init(outlen: nat)
      requires outlen <= 32
      ensures Valid() && fresh(h) && fresh(buf)
      ensures this.outlen == outlen && start == StartFrom(outlen, 0) && data == []
    {
      hide Xor32, Or;
      ParameterWord(outlen, 0);
      var h', buf' := InitParam(Or(0x0101_0000, outlen));
      h, buf, buflen := h', buf', 0;
      t0, t1, f0, f1 := 0, 0, 0, 0;
      this.outlen := outlen;
      start, data := StartFrom(outlen, 0), [];
      chained := 0;
    }

    /** The key goes first, padded to a block. */
    constructor InitKey(outlen: nat, key: seq<byte>)
      requires outlen <= 32 && |key| <= 64
      ensures Valid() && fresh(h) && fresh(buf)
      ensures this.outlen == outlen && start == StartFrom(outlen, |key|) && data == PadBlock(key)
    {
      hide Xor32, Or;
      ParameterWord(outlen, |key|);
      var h', buf' := InitParam(Or(Or(0x0101_0000, |key| * 0x100), outlen));
      h, buf, buflen := h', buf', 0;
      t0, t1, f0, f1 := 0, 0, 0, 0;
      this.outlen := outlen;
      start, data := StartFrom(outlen, |key|), [];
      chained := 0;
      new;
      Update(PadBlock(key));
    }

    method IncrementCounter(inc: u32, ghost t: nat)
      requires Counts(t0, t1, t)
      modifies this`t0, this`t1
      ensures Counts(t0, t1, t + inc)
    {
      CounterStep(t0, t1, t, inc);
      t0 := Add32(t0, inc);
      t1 := Add32(t1, if t0 < inc then 1 else 0);
    }

    method CompressBlock(block: seq<byte>, inc: u32, ghost t: nat)
      requires h.Length == 8 && |block| == 64 && f1 == 0 && Counts(t0, t1, t)
      modifies this`t0, this`t1, h
      ensures h[..] == F(old(h[..]), block, t + inc, f0)
      ensures Counts(t0, t1, t + inc)
    {
      hide Round, Xor32, LoadWords;
      IncrementCounter(inc, t);
      var m := LoadWords(block);
      ghost var h0 := h[..];
      var v: Words16 :=
        h[..] + IV[..4] + [Xor32(IV[4], t0), Xor32(IV[5], t1), Xor32(IV[6], f0), Xor32(IV[7], f1)];
      ghost var v0 := v;
      assert v0 == WorkVector(h0, t + inc, f0);
      for r := 0 to 10
        invariant v == Rounds(v0, m, r)
      {
        v := Round(v, m, Sigma(r));
      }
      for i := 0 to 8
        modifies h
        invariant forall j :: 0 <= j < i ==> h[j] == Fold(h0, v)[j]
        invariant forall j :: i <= j < 8 ==> h[j] == h0[j]
      {
        h[i] := Xor32(h[i], Xor32(v[i], v[i + 8]));
      }
      assert h[..] == Fold(h0, v);
    }

    method Compress(blocks: seq<byte>, nblocks: nat, inc: u32, ghost t: nat)
      requires h.Length == 8 && |blocks| == 64 * nblocks && f1 == 0 && Counts(t0, t1, t)
      modifies this`t0, this`t1, h
      ensures h[..] == Steps(old(h[..]), blocks, nblocks, t, inc, f0)
      ensures Counts(t0, t1, t + inc * nblocks)
    {
      hide F, Counts;
      var done := 0;
      ghost var want, at := Steps(h[..], blocks, nblocks, t, inc, f0), t;
      while done < nblocks
        invariant done <= nblocks && at == t + inc * done
        invariant Steps(h[..], blocks[64 * done..], nblocks - done, at, inc, f0) == want
        invariant Counts(t0, t1, at)
      {
        ghost var left := blocks[64 * done..];
        CompressBlock(blocks[64 * done..64 * done + 64], inc, at);
        assert left[..64] == blocks[64 * done..64 * done + 64] && left[64..] == blocks[64 * (done + 1)..];
        done := done + 1;
        at := at + inc;
      }
    }

    /** memcpy(buf + buflen, m, |m|). */
    method CopyIn(m: seq<byte>)
      requires buf.Length == 64 && buflen + |m| <= 64
      modifies buf
      ensures buf[..buflen + |m|] == old(buf[..buflen]) + m
    {
      forall i | 0 <= i < |m| {
        buf[buflen + i] := m[i];
      }
    }

    /** Compresses the full buffer. */
    method FillBuffer(m: seq<byte>)
      requires Tracks() && buflen + |m| == 64
      modifies this`t0, this`t1, this`buflen, this`data, this`chained, h, buf
      ensures Tracks() && buflen == 0 && data == old(data) + m
    {
      hide Steps, Chain, Counts;
      ghost var done, part := data[..64 * chained], buf[..buflen];
      CopyIn(m);
      assert buf[..] == part + m;
      ChainSteps(start, done, chained, part + m, 1);
      Compress(buf[..], 1, 64, 64 * chained);
      data := data + m;
      buflen, chained := 0, chained + 1;
      assert data[..64 * chained] == done + (part + m);
    }

    method Direct(m: seq<byte>, nblocks: nat)
      requires Tracks() && buflen == 0 && |m| == 64 * nblocks
      modifies this`t0, this`t1, this`data, this`chained, h
      ensures Tracks() && buflen == 0 && data == old(data) + m
    {
      hide Steps, Chain, Counts;
      assert data[..64 * chained] == data;
      ChainSteps(start, data, chained, m, nblocks);
      Compress(m, nblocks, 64, 64 * chained);
      data, chained := data + m, chained + nblocks;
      assert data[..64 * chained] == data;
    }

    method Keep(m: seq<byte>)
      requires Tracks() && buflen + |m| <= 64
      modifies this`buflen, this`data, buf
      ensures Tracks() && data == old(data) + m && buflen == old(buflen) + |m|
    {
      hide Chain, Counts;
      ghost var done := data[..64 * chained];
      CopyIn(m);
      data := data + m;
      buflen := buflen + |m|;
      assert data[..64 * chained] == done;
    }

    /** However a message is cut into updates, the state depends on the concatenation alone. */
    method Update(m: seq<byte>)
      requires Valid()
      modifies this`t0, this`t1, this`buflen, this`data, this`chained, h, buf
      ensures Valid() && data == old(data) + m
    {
      var fill := 64 - buflen;
      if |m| == 0 {
        assert data + m == data;
        return;
      }
      assert Tracks() && 0 <= fill <= 64;
      hide Tracks;
      var rest := m;
      if |rest| > fill {
        Split(data, rest, fill);
        FillBuffer(rest[..fill]);
        rest := rest[fill..];
      }
      if |rest| > 64 {
        var nblocks := (|rest| + 63) / 64;
        var front := 64 * (nblocks - 1);
        Split(data, rest, front);
        Direct(rest[..front], nblocks - 1);
        rest := rest[front..];
      }
      Keep(rest);
    }

    /** The digest is that of everything absorbed, computed at once. */
    method Final() returns (out: seq<byte>)
      requires Valid()
      modifies this`t0, this`t1, this`f0, h, buf
      ensures out == StoreWords(Digest(start, data))[..outlen]
    {
      hide F, Chain, StoreWords, Counts;
      f0 := FINAL;
      ghost var done, part := data[..64 * chained], buf[..buflen];
      HeldIs(|data|, chained);
      for i := buflen to 64
        modifies buf
        invariant buf[..buflen] == part && forall j :: buflen <= j < i ==> buf[j] == 0
      {
        buf[i] := 0;
      }
      assert buf[..] == PadBlock(part);
      assert h[..] == Chain(start, done, chained);
      OneStep(h[..], buf[..], 64 * chained, buflen, f0);
      Compress(buf[..], 1, buflen, 64 * chained);
      assert h[..] == Digest(start, data);
      out := StoreWords(h[..])[..outlen];
    }
  }

  lemma OneStep(h: Words8, block: seq<byte>, t: nat, inc: nat, f: u32)
    requires |block| == 64
    ensures Steps(h, block, 1, t, inc, f) == F(h, block, t + inc, f)
  {
    hide F;
    assert block[..64] == block && block[64..] == [];
  }

  method InitParam(param: u32) returns (h: array<u32>, buf: array<byte>)
    ensures fresh(h) && fresh(buf) && h.Length == 8 && buf.Length == 64
    ensures h[..] == IV[0 := Xor32(IV[0], param)]
  {
    hide Xor32;
    buf := new byte[64](_ => 0);
    h := new u32[8](i requires 0 <= i < 8 => IV[i]);
    h[0] := Xor32(h[0], param);
  }

  /** The one-shot form; a key of length zero means no key block. */
  method Blake2s(message: seq<byte>, key: seq<byte>, outlen: nat) returns (out: seq<byte>)
    requires outlen <= 32 && |key| <= 64
    ensures out == Hash(outlen, key, message)
  {
    hide Digest, StoreWords, State.Valid, StartFrom;
    var state: State;
    if |key| != 0 {
      state := new State.InitKey(outlen, key);
    } else {
      state := new State.Init(outlen);
    }
    ghost var d := state.data;
    state.Update(message);
    assert key == [] ==> d + message == message;
    out := state.Final();
  }
}
