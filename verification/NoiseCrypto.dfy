/** The hash-based constructions of the Noise handshake, the key schedule of IKpsk2 and its timestamps. */
module NoiseCrypto {
  import opened Words
  import Blake2s

  type Key = s: seq<byte> | |s| == 32 witness Zeros(32)

  const NO_KEY: Key := Zeros(32)

  // ---- HMAC and key derivation ----------------------------------------------------------

  function Hash(data: seq<byte>): Key { Blake2s.Hash(32, [], data) }

  function XorAll(block: seq<byte>, c: byte): (r: seq<byte>)
    ensures |r| == |block|
  {
    seq(|block|, i requires 0 <= i < |block| => XorByte(block[i], c))
  }

  function KeyBlock(key: seq<byte>): (r: seq<byte>)
    ensures |r| == 64
  {
    Blake2s.PadBlock(if |key| > 64 then Hash(key) else key)
  }

  /** HMAC as RFC 2104 defines it, over BLAKE2s. */
  function Hmac(key: seq<byte>, text: seq<byte>): Key {
    Hash(XorAll(KeyBlock(key), 0x5c) + Hash(XorAll(KeyBlock(key), 0x36) + text))
  }

  /** The i-th output block of HKDF (section 2.3 of RFC 5869 with empty info). */
  function Expand(prk: Key, i: nat): Key
    requires 1 <= i <= 255
    decreases i, prk
  {
    Hmac(prk, (if i == 1 then [] else Expand(prk, i - 1)) + [i as byte])
  }

  /** Output i of the key derivation from chaining key ck and input x. */
  function Kdf(ck: Key, x: seq<byte>, i: nat): Key
    requires 1 <= i <= 255
  {
    Expand(Hmac(ck, x), i)
  }

  lemma OuterPad(k: byte)
    ensures XorByte(XorByte(k, 0x36), Xor(0x5c, 0x36)) == XorByte(k, 0x5c)
    ensures Xor(0x5c, 0x36) < 0x100
  {
    assert Pow2(8) == 0x100;
    XorBound(0x5c, 0x36, 8);
    hide Xor, Pow2;
    XorCommutes(0x5c, 0x36);
    XorAssociates(k, 0x36, Xor(0x36, 0x5c));
    XorCancels(0x36, 0x5c);
  }

  /** init, one update per part, final. */
  method HashTwo(a: seq<byte>, b: seq<byte>) returns (out: Key)
    ensures out == Hash(a + b)
  {
    hide Blake2s.State.Valid, Blake2s.Digest, StoreWords, Blake2s.StartFrom;
    var state := new Blake2s.State.Init(32);
    state.Update(a);
    state.Update(b);
    assert [] + a + b == a + b;
    out := state.Final();
  }

  method XorInPlace(x: array<byte>, c: byte)
    modifies x
    ensures x[..] == XorAll(old(x[..]), c)
  {
    hide XorByte;
    for i := 0 to x.Length
      invariant forall j :: 0 <= j < i ==> x[j] == XorByte(old(x[j]), c)
      invariant forall j :: i <= j < x.Length ==> x[j] == old(x[j])
    {
      x[i] := XorByte(x[i], c);
    }
  }

  /** The padded key is turned from its inner to its outer form in place. */
  method ComputeHmac(text: seq<byte>, key: seq<byte>, outlen: nat) returns (out: seq<byte>)
    requires outlen <= 32
    ensures out == Hmac(key, text)[..outlen]
    ensures outlen == 32 ==> out == Hmac(key, text)
  {
    hide Hash, XorByte;
    var padded := key;
    if |key| > 64 {
      padded := HashTwo(key, []);
      assert key + [] == key;
    }
    var x := new byte[64](i => if 0 <= i < |padded| then padded[i] else 0);
    assert x[..] == KeyBlock(key);
    XorInPlace(x, 0x36);
    var inner := HashTwo(x[..], text);
    ghost var was := x[..];
    OuterPad(0);
    XorInPlace(x, Xor(0x5c, 0x36));
    forall i | 0 <= i < 64 ensures x[..][i] == XorAll(KeyBlock(key), 0x5c)[i] {
      OuterPad(KeyBlock(key)[i]);
    }
    assert x[..] == XorAll(KeyBlock(key), 0x5c);
    out := HashTwo(x[..], inner);
    out := out[..outlen];
  }

  method Overwrite(out: array<byte>, data: seq<byte>, last: byte)
    requires out.Length == 33 && |data| == 32
    modifies out
    ensures out[..] == data + [last]
  {
    forall i | 0 <= i < 32 {
      out[i] := data[i];
    }
    out[32] := last;
  }

  /** Up to three outputs of the wanted lengths; the first empty one ends the derivation. */
  method NoiseKdf(x: seq<byte>, alen: nat, blen: nat, clen: nat, ck: Key)
    returns (a: seq<byte>, b: seq<byte>, c: seq<byte>)
    requires alen <= 32 && blen <= 32 && clen <= 32
    ensures a == Kdf(ck, x, 1)[..alen]
    ensures b == Kdf(ck, x, 2)[..if alen == 0 then 0 else blen]
    ensures c == Kdf(ck, x, 3)[..if alen == 0 || blen == 0 then 0 else clen]
  {
    hide Hmac;
    var out := new byte[33](_ => 0);
    var sec := ComputeHmac(x, ck, 32);
    a, b, c := [], [], [];
    if alen == 0 {
      return;
    }
    out[0] := 1;
    assert [] + [1 as byte] == out[..1];
    var block := ComputeHmac(out[..1], sec, 32);
    assert block == Kdf(ck, x, 1);
    a := block[..alen];
    if blen == 0 {
      return;
    }
    Overwrite(out, block, 2);
    block := ComputeHmac(out[..], sec, 32);
    assert block == Kdf(ck, x, 2);
    b := block[..blen];
    if clen == 0 {
      return;
    }
    Overwrite(out, block, 3);
    block := ComputeHmac(out[..], sec, 32);
    assert block == Kdf(ck, x, 3);
    c := block[..clen];
  }
}
