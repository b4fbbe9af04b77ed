/** ChaCha20-Poly1305 (section 2.8 of RFC 8439): the buffer interface and the in-place path
    over packet buffers that data packets take. */
module Aead {
  import opened Wrappers
  import opened Words
  import opened ChaCha20
  import Poly1305

  // ---- Sealing and opening as functions -------------------------------------------------------

  function PolyKey(key: seq<byte>, nonce: seq<byte>): (k: seq<byte>)
    requires |key| == 32 && |nonce| == 12
    ensures |k| == 32
  {
    BlockBytes(InitialState(key, nonce, 0))[..32]
  }

  function Pad(len: nat): (z: seq<byte>) { Zeros((16 - len % 16) % 16) }

  function MacData(ad: seq<byte>, ct: seq<byte>): seq<byte> {
    ad + Pad(|ad|) + ct + Pad(|ct|) + ShiftBytes(|ad|, 8) + ShiftBytes(|ct|, 8)
  }

  function TagOf(key: seq<byte>, nonce: seq<byte>, ad: seq<byte>, ct: seq<byte>): (tag: seq<byte>)
    requires |key| == 32 && |nonce| == 12
    ensures |tag| == 16
  {
    ShiftBytes(Poly1305.Mac(PolyKey(key, nonce), MacData(ad, ct)), 16)
  }

  function Seal(key: seq<byte>, nonce: seq<byte>, ad: seq<byte>, plain: seq<byte>): (c: seq<byte>)
    requires |key| == 32 && |nonce| == 12
    ensures |c| == |plain| + 16
  {
    var ct := XorStream(plain, key, nonce, 1);
    ct + TagOf(key, nonce, ad, ct)
  }

  function Open(key: seq<byte>, nonce: seq<byte>, ad: seq<byte>, c: seq<byte>): (plain: Option<seq<byte>>)
    requires |key| == 32 && |nonce| == 12
    ensures plain.Some? ==> |plain.value| + 16 == |c|
  {
    if |c| < 16 then None
    else
      var ct := c[..|c| - 16];
      if TagOf(key, nonce, ad, ct) != c[|c| - 16..] then None
      else Some(XorStream(ct, key, nonce, 1))
  }

  /** Opening accepts exactly the sealed messages, and gives back what was sealed. */
  lemma OpenIffSealed(key: seq<byte>, nonce: seq<byte>, ad: seq<byte>, c: seq<byte>, plain: seq<byte>)
    requires |key| == 32 && |nonce| == 12
    ensures Open(key, nonce, ad, c) == Some(plain) <==> c == Seal(key, nonce, ad, plain)
  {
    hide XorStream, TagOf;
    XorStreamInvolutive(plain, key, nonce, 1);
    var sealed := Seal(key, nonce, ad, plain);
    assert sealed[..|sealed| - 16] == XorStream(plain, key, nonce, 1);
    assert sealed[|sealed| - 16..] == TagOf(key, nonce, ad, XorStream(plain, key, nonce, 1));
    if |c| >= 16 {
      var ct := c[..|c| - 16];
      XorStreamInvolutive(ct, key, nonce, 1);
      assert c == ct + c[|c| - 16..];
    }
  }

  /** Two different plaintexts of one key, nonce and associated data never seal to the same bytes. */
  lemma SealInjective(key: seq<byte>, nonce: seq<byte>, ad: seq<byte>, p: seq<byte>, q: seq<byte>)
    requires |key| == 32 && |nonce| == 12
    requires Seal(key, nonce, ad, p) == Seal(key, nonce, ad, q)
    ensures p == q
  {
    OpenIffSealed(key, nonce, ad, Seal(key, nonce, ad, p), p);
    OpenIffSealed(key, nonce, ad, Seal(key, nonce, ad, p), q);
  }

  lemma EightBytes(m: nat, n: nat)
    requires m < 0x1_0000_0000_0000_0000 && n < 0x1_0000_0000_0000_0000
    ensures LE(ShiftBytes(m, 8)) == m && (ShiftBytes(m, 8) == ShiftBytes(n, 8) ==> m == n)
  {
    hide LE, Pow2, ShiftBytes;
    TwoTo64();
    ShiftBytesValue(m, 8);
    ShiftBytesValue(n, 8);
  }

  lemma MacDataEnds(ad: seq<byte>, ct: seq<byte>)
    ensures var m := MacData(ad, ct); var n := |m|;
      && n == |ad| + |Pad(|ad|)| + |ct| + |Pad(|ct|)| + 16
      && m[n - 16..n - 8] == ShiftBytes(|ad|, 8) && m[n - 8..] == ShiftBytes(|ct|, 8)
      && m[..|ad|] == ad && m[|ad| + |Pad(|ad|)|..][..|ct|] == ct
  {
    hide ShiftBytes;
  }

  /** What is authenticated tells associated data and ciphertext apart. */
  lemma MacDataInjective(ad: seq<byte>, ct: seq<byte>, ad': seq<byte>, ct': seq<byte>)
    requires |ad| < 0x1_0000_0000_0000_0000 && |ct| < 0x1_0000_0000_0000_0000
    requires |ad'| < 0x1_0000_0000_0000_0000 && |ct'| < 0x1_0000_0000_0000_0000
    requires MacData(ad, ct) == MacData(ad', ct')
    ensures ad == ad' && ct == ct'
  {
    MacDataEnds(ad, ct);
    MacDataEnds(ad', ct');
    hide MacData, ShiftBytes, LE, Pad;
    EightBytes(|ad|, |ad'|);
    EightBytes(|ct|, |ct'|);
  }

  /** Four zero bytes and the counter, and no two counters have the same nonce. */
  lemma PacketNonceIs(m: u64, n: u64)
    ensures PacketNonce(m)[..4] == [0, 0, 0, 0] && LE(PacketNonce(m)[4..]) == m
    ensures PacketNonce(m) == PacketNonce(n) ==> m == n
  {
    EightBytes(m, n);
    hide ShiftBytes, LE;
    assert PacketNonce(m)[4..] == ShiftBytes(m, 8) && PacketNonce(n)[4..] == ShiftBytes(n, 8);
  }

  /** One key stream serves all: its first 32 bytes are the authenticator's key, the rest of that block is
      dropped, and the data takes the bytes from the second block on. */
  lemma OneStream(key: seq<byte>, nonce: seq<byte>, ad: seq<byte>, plain: seq<byte>)
    requires |key| == 32 && |nonce| == 12 && |plain| < 0x3f_ffff_ffc0
    ensures forall i :: 0 <= i < 32 ==> PolyKey(key, nonce)[i] == KeystreamByte(key, nonce, 0, i)
    ensures forall i :: 0 <= i < |plain| ==>
      Seal(key, nonce, ad, plain)[i] == XorByte(plain[i], KeystreamByte(key, nonce, 0, 64 + i))
  {
    hide BlockBytes, InitialState, TagOf, XorByte;
    forall i | 0 <= i < |plain|
      ensures KeystreamByte(key, nonce, 1, i) == KeystreamByte(key, nonce, 0, 64 + i)
    {
      assert (64 + i) / 64 == 1 + i / 64 && (64 + i) % 64 == i % 64;
    }
  }

  lemma TagIsMac(tag: seq<byte>, mac: nat)
    requires |tag| == 16 && LE(tag) == mac < Poly1305.T128
    ensures tag == ShiftBytes(mac, 16)
  {
    hide LE, Pow2, ShiftBytes;
    ShiftBytesValue(mac, 16);
    TwoTo128();
    LEInjective(tag, ShiftBytes(mac, 16));
  }

  lemma TwoTo128()
    ensures Pow2(128) == Poly1305.T128
  {
    hide Pow2;
    TwoTo64();
    Pow2Add(64, 64);
  }

  // ---- The shared steps -------------------------------------------------------------------------

  method PolyKeyGen(key: seq<byte>, nonce: seq<byte>) returns (k: seq<byte>)
    requires |key| == 32 && |nonce| == 12
    ensures k == PolyKey(key, nonce) && |k| == 32
  {
    hide BlockBytes, InitialState;
    var block := ChaChaBlock(InitialState(key, nonce, 0));
    k := block[..32];
  }

  /** AAD || pad || ciphertext || pad || len(aad) || len(ct), fed to the authenticator piece by piece. */
  method Feed(mac: Poly1305.Context, ad: seq<byte>, ct: seq<byte>)
    requires mac.Valid() && mac.msg == []
    modifies mac, mac.h, mac.buf
    ensures mac.Valid() && mac.msg == MacData(ad, ct)
  {
    hide Poly1305.Context.Valid, ShiftBytes, Zeros;
    mac.Update(ad);
    mac.Pad16(|ad|);
    mac.Update(ct);
    mac.Pad16(|ct|);
    mac.Update(ShiftBytes(|ad|, 8));
    mac.Update(ShiftBytes(|ct|, 8));
  }

  /** The shorter feed of the packet path, which has no associated data. */
  method FeedPacket(mac: Poly1305.Context, ct: seq<byte>)
    requires mac.Valid() && mac.msg == []
    modifies mac, mac.h, mac.buf
    ensures mac.Valid() && mac.msg == MacData([], ct)
  {
    hide Poly1305.Context.Valid, ShiftBytes;
    mac.Update(ct);
    mac.Pad16(|ct|);
    mac.Update(ShiftBytes(0, 8));
    mac.Update(ShiftBytes(|ct|, 8));
    assert Pad(0) == [];
  }

  method ComputeTag(key: seq<byte>, nonce: seq<byte>, ad: seq<byte>, ct: seq<byte>) returns (tag: seq<byte>)
    requires |key| == 32 && |nonce| == 12
    ensures tag == TagOf(key, nonce, ad, ct)
  {
    hide PolyKey, LE, Poly1305.Mac, Poly1305.Context.Valid, ShiftBytes, MacData;
    var polyKey := PolyKeyGen(key, nonce);
    var mac := new Poly1305.Context(polyKey);
    Feed(mac, ad, ct);
    tag := mac.Finish();
    TagIsMac(tag, Poly1305.Mac(polyKey, MacData(ad, ct)));
  }

  method ComputePacketTag(key: seq<byte>, nonce: seq<byte>, ct: seq<byte>) returns (tag: seq<byte>)
    requires |key| == 32 && |nonce| == 12
    ensures tag == TagOf(key, nonce, [], ct)
  {
    hide PolyKey, LE, Poly1305.Mac, Poly1305.Context.Valid, ShiftBytes, MacData;
    var polyKey := PolyKeyGen(key, nonce);
    var mac := new Poly1305.Context(polyKey);
    FeedPacket(mac, ct);
    tag := mac.Finish();
    TagIsMac(tag, Poly1305.Mac(polyKey, MacData([], ct)));
  }

  /** Constant-time comparison: zero exactly when the strings agree. */
  method CtMemcmp(a: seq<byte>, b: seq<byte>) returns (diff: nat)
    requires |a| == |b|
    ensures diff == 0 <==> a == b
  {
    hide Or, Xor;
    diff := 0;
    for i := 0 to |a|
      invariant diff == 0 <==> a[..i] == b[..i]
    {
      XorIsZero(a[i], b[i]);
      OrIsZero(diff, Xor(a[i], b[i]));
      assert a[..i + 1] == a[..i] + [a[i]] && b[..i + 1] == b[..i] + [b[i]];
      diff := Or(diff, Xor(a[i], b[i]));
    }
    assert a[..|a|] == a && b[..|b|] == b;
  }

  method CopyTo(dst: array<byte>, at: nat, src: seq<byte>)
    requires at + |src| <= dst.Length
    modifies dst
    ensures dst[..] == old(dst[..at]) + src + old(dst[at + |src|..])
  {
    forall i | 0 <= i < |src| {
      dst[at + i] := src[i];
    }
  }

  // ---- The buffer interface -----------------------------------------------------------------------

  method AeadEncrypt(dst: array<byte>, src: seq<byte>, ad: seq<byte>, nonce: seq<byte>, key: seq<byte>)
    requires |key| == 32 && |nonce| == 12 && |src| + 16 <= dst.Length
    modifies dst
    ensures dst[..] == Seal(key, nonce, ad, src) + old(dst[|src| + 16..])
  {
    hide XorStream, TagOf;
    var n := |src|;
    CopyTo(dst, 0, src);
    assert dst[0..0 + n] == src;
    ChaChaXor(dst, 0, n, key, nonce, 1);
    ghost var ct := XorStream(src, key, nonce, 1);
    assert dst[..n] == ct;
    var tag := ComputeTag(key, nonce, ad, dst[..n]);
    assert dst[n..][16..] == dst[n + 16..];
    CopyTo(dst, n, tag);
  }

  method AeadDecrypt(dst: array<byte>, src: seq<byte>, ad: seq<byte>, nonce: seq<byte>,
                     key: seq<byte>) returns (ok: bool)
    requires |key| == 32 && |nonce| == 12 && |src| <= dst.Length + 16
    modifies dst
    ensures ok <==> Open(key, nonce, ad, src).Some?
    ensures ok ==> dst[..] == Open(key, nonce, ad, src).value + old(dst[|src| - 16..])
    ensures !ok ==> dst[..] == old(dst[..])
  {
    hide XorStream, TagOf;
    if |src| < 16 {
      return false;
    }
    var n := |src| - 16;
    var tag := ComputeTag(key, nonce, ad, src[..n]);
    var diff := CtMemcmp(tag, src[n..]);
    if diff != 0 {
      return false;
    }
    CopyTo(dst, 0, src[..n]);
    assert dst[0..0 + n] == src[..n];
    ChaChaXor(dst, 0, n, key, nonce, 1);
    return true;
  }

  // ---- Packet buffers -------------------------------------------------------------------------------

  /** 4 zero bytes, then the counter in little-endian order. */
  function PacketNonce(counter: u64): (n: seq<byte>)
    ensures |n| == 12
  {
    Zeros(4) + ShiftBytes(counter, 8)
  }

  /** A packet buffer: one allocation, of which the first `len` bytes are in use. */
  class Mbuf {
    var data: array<byte>
    var len: nat

    ghost predicate Valid()
      reads this
    {
      len <= data.Length
    }

    function Contents(): (c: seq<byte>)
      requires Valid()
      reads this, data
      ensures |c| == len
    {
      data[..len]
    }

    constructor (bytes: seq<byte>)
      ensures Valid() && Contents() == bytes && fresh(data)
    {
      data := new byte[|bytes| + 64];
      len := |bytes|;
      new;
      forall i | 0 <= i < |bytes| {
        data[i] := bytes[i];
      }
    }

    /** Grows the allocation when the bytes do not fit. */
    method Append(bytes: seq<byte>)
      requires Valid()
      modifies this, data
      ensures Valid() && Contents() == old(Contents()) + bytes
      ensures data == old(data) || fresh(data)
    {
      var need := len + |bytes|;
      if need > data.Length {
        var grown := new byte[need + 64];
        forall i | 0 <= i < len {
          grown[i] := data[i];
        }
        data := grown;
      }
      CopyTo(data, len, bytes);
      len := need;
    }
  }

  /** Encrypts in place and writes the tag behind the payload. */
  method DispatchEncrypt(m: Mbuf, payload: nat, key: seq<byte>, nonce: seq<byte>)
    requires m.Valid() && m.len == payload + 16 && |key| == 32 && |nonce| == 12
    modifies m.data
    ensures m.Contents() == Seal(key, nonce, [], old(m.Contents())[..payload])
  {
    hide XorStream, TagOf;
    ghost var plain := m.Contents()[..payload];
    assert m.data[0..0 + payload] == plain;
    ChaChaXor(m.data, 0, payload, key, nonce, 1);
    assert m.data[..payload] == XorStream(plain, key, nonce, 1);
    var tag := ComputePacketTag(key, nonce, m.data[..payload]);
    CopyTo(m.data, payload, tag);
  }

  /** Checks the tag first; the payload is touched only when it agrees. */
  method DispatchDecrypt(m: Mbuf, payload: nat, key: seq<byte>, nonce: seq<byte>) returns (rc: Errno)
    requires m.Valid() && m.len == payload + 16 && |key| == 32 && |nonce| == 12
    modifies m.data
    ensures rc == (if Open(key, nonce, [], old(m.Contents())).Some? then Ok else EBADMSG)
    ensures rc == Ok ==> m.Contents()[..payload] == Open(key, nonce, [], old(m.Contents())).value
    ensures rc != Ok ==> m.Contents() == old(m.Contents())
  {
    hide XorStream, TagOf;
    ghost var c := m.Contents();
    assert m.data[..payload] == c[..payload] && m.data[payload..payload + 16] == c[payload..];
    var expected := ComputePacketTag(key, nonce, m.data[..payload]);
    var diff := CtMemcmp(expected, m.data[payload..payload + 16]);
    if diff != 0 {
      return EBADMSG;
    }
    assert m.data[0..0 + payload] == c[..payload];
    ChaChaXor(m.data, 0, payload, key, nonce, 1);
    return Ok;
  }

  method EncryptMbuf(m: Mbuf, counter: u64, key: seq<byte>)
    requires m.Valid() && |key| == 32
    modifies m, m.data
    ensures m.Valid() && m.Contents() == Seal(key, PacketNonce(counter), [], old(m.Contents()))
    ensures m.data == old(m.data) || fresh(m.data)
  {
    hide Seal;
    m.Append(Zeros(16));
    var payload := m.len - 16;
    DispatchEncrypt(m, payload, key, PacketNonce(counter));
  }

  /** Opens in place and drops the tag; a short or forged packet is left as it was. */
  method DecryptMbuf(m: Mbuf, counter: u64, key: seq<byte>) returns (rc: Errno)
    requires m.Valid() && |key| == 32
    modifies m, m.data
    ensures m.Valid() && m.data == old(m.data)
    ensures var plain := Open(key, PacketNonce(counter), [], old(m.Contents()));
      match plain
      case Some(p) => rc == Ok && m.Contents() == p
      case None => rc == (if old(m.len) < 16 then EMSGSIZE else EBADMSG) && m.Contents() == old(m.Contents())
  {
    if m.len < 16 {
      return EMSGSIZE;
    }
    hide TagOf, XorStream;
    var payload := m.len - 16;
    rc := DispatchDecrypt(m, payload, key, PacketNonce(counter));
    if rc != Ok {
      return rc;
    }
    ghost var p := m.Contents()[..payload];
    m.len := payload;
    assert m.Contents() == p;
  }
}
