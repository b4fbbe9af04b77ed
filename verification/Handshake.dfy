/** The computations behind the four messages of IKpsk2 (sections 7.5 and 9 of the Noise Protocol Framework,
    revision 34) on values, and the agreement of the two sides. */
module Handshake {
  import opened Wrappers
  import opened Words
  import opened NoiseCrypto
  import X25519
  import Aead

  function Text(s: string): (b: seq<byte>)
    ensures |b| == |s|
  {
    seq(|s|, i requires 0 <= i < |s| => s[i] as int % 0x100)
  }

  type Stamp = s: seq<byte> | |s| == 12 witness Zeros(12)

  const CONSTRUCTION := "Noise_IKpsk2_25519_ChaChaPoly_BLAKE2s"
  const IDENTIFIER := "WireGuard v1 zx2c4 Jason@zx2c4.com"

  function Public(priv: Key): Key { X25519.Dh(priv, X25519.BASEPOINT) }

  datatype Symmetric = Symmetric(ck: Key, hash: Key)
  datatype HandshakeState = HandshakeState(e: Key, hash: Key, ck: Key)

  // ---- Tokens ---------------------------------------------------------------------------

  function MixHash(hash: Key, data: seq<byte>): Key { Hash(hash + data) }

  function ParamInit(responder: Key): Symmetric {
    var ck := Hash(Text(CONSTRUCTION));
    Symmetric(ck, MixHash(Hash(ck + Text(IDENTIFIER)), responder))
  }

  function MixEphemeral(s: Symmetric, ue: Key): Symmetric {
    Symmetric(Kdf(s.ck, ue, 1), MixHash(s.hash, ue))
  }

  /** A shared secret of all zeros is refused. */
  function MixSecret(s: Symmetric, secret: Key): Option<(Symmetric, Key)> {
    hide Kdf;
    if secret == Zeros(32) then None
    else Some((s.(ck := Kdf(s.ck, secret, 1)), Kdf(s.ck, secret, 2)))
  }

  function MixDh(s: Symmetric, priv: Key, pub: Key): Option<(Symmetric, Key)> {
    MixSecret(s, X25519.Dh(priv, pub))
  }

  function MixPsk(s: Symmetric, psk: Key): (Symmetric, Key) {
    hide Kdf;
    (Symmetric(Kdf(s.ck, psk, 1), MixHash(s.hash, Kdf(s.ck, psk, 2))), Kdf(s.ck, psk, 3))
  }

  const NONCE_ZERO: seq<byte> := Aead.PacketNonce(0)

  function SealField(s: Symmetric, key: Key, plain: seq<byte>): (r: (seq<byte>, Symmetric))
    ensures |r.0| == |plain| + 16
  {
    var c := Aead.Seal(key, NONCE_ZERO, s.hash, plain);
    (c, s.(hash := MixHash(s.hash, c)))
  }

  function OpenField(s: Symmetric, key: Key, c: seq<byte>): (r: Option<(seq<byte>, Symmetric)>)
    ensures r.Some? ==> |r.value.0| + 16 == |c|
  {
    match Aead.Open(key, NONCE_ZERO, s.hash, c)
    case None => None
    case Some(plain) => Some((plain, s.(hash := MixHash(s.hash, c))))
  }

  lemma FieldOpens(s: Symmetric, key: Key, plain: seq<byte>)
    ensures var (c, s') := SealField(s, key, plain); OpenField(s, key, c) == Some((plain, s'))
  {
    hide Aead.Open, Aead.Seal;
    Aead.OpenIffSealed(key, NONCE_ZERO, s.hash, Aead.Seal(key, NONCE_ZERO, s.hash, plain), plain);
  }

  // ---- The four messages ----------------------------------------------------------------

  datatype Initiation = Initiation(hs: HandshakeState, ue: Key, es: seq<byte>, ets: seq<byte>)
  datatype Response = Response(hs: HandshakeState, ue: Key, en: seq<byte>)

  /** e, es, s, ss, {t}. */
  function Initiate(public: Key, e: Key, responder: Key, ss: Key, stamp: Stamp): Option<Initiation> {
    var ue := Public(e);
    var s := MixEphemeral(ParamInit(responder), ue);
    match MixDh(s, e, responder)
    case None => None
    case Some((s, key)) =>
      var (es, s) := SealField(s, key, public);
      match MixSecret(s, ss)
      case None => None
      case Some((s, key)) =>
        var (ets, s) := SealField(s, key, stamp);
        Some(Initiation(HandshakeState(e, s.hash, s.ck), ue, es, ets))
  }

  /** e, es, s: who claims to be initiating. */
  function ReadStatic(priv: Key, public: Key, ue: Key, es: seq<byte>): Option<(seq<byte>, Symmetric)> {
    match MixDh(MixEphemeral(ParamInit(public), ue), priv, ue)
    case None => None
    case Some((s, key)) => OpenField(s, key, es)
  }

  /** ss, {t}: proof of that, and the timestamp. */
  function ReadStamp(s: Symmetric, ss: Key, ue: Key, ets: seq<byte>): Option<(Stamp, HandshakeState)>
    requires |ets| == 28
  {
    hide MixSecret, OpenField;
    match MixSecret(s, ss)
    case None => None
    case Some((s, key)) =>
      match OpenField(s, key, ets)
      case None => None
      case Some((stamp, s)) => Some((stamp, HandshakeState(ue, s.hash, s.ck)))
  }

  /** The whole first message, as coming from the given peer. */
  function ReadInitiation(priv: Key, public: Key, peer: Key, ss: Key, ue: Key, es: seq<byte>, ets: seq<byte>)
    : (r: Option<(Stamp, HandshakeState)>)
    requires |ets| == 28
  {
    match ReadStatic(priv, public, ue, es)
    case None => None
    case Some((key, s)) => if key != peer then None else ReadStamp(s, ss, ue, ets)
  }

  /** e, ee, se, psk, {}. */
  function Respond(hs: HandshakeState, e: Key, initiator: Key, psk: Key): Option<Response> {
    var ue := Public(e);
    match MixDh(MixEphemeral(Symmetric(hs.ck, hs.hash), ue), e, hs.e)
    case None => None
    case Some((s, _)) =>
      match MixDh(s, e, initiator)
      case None => None
      case Some((s, _)) =>
        var (s, key) := MixPsk(s, psk);
        var (en, s) := SealField(s, key, []);
        Some(Response(hs.(hash := s.hash, ck := s.ck), ue, en))
  }

  function ReadResponse(hs: HandshakeState, priv: Key, psk: Key, ue: Key, en: seq<byte>): Option<HandshakeState> {
    match MixDh(MixEphemeral(Symmetric(hs.ck, hs.hash), ue), hs.e, ue)
    case None => None
    case Some((s, _)) =>
      match MixDh(s, priv, ue)
      case None => None
      case Some((s, _)) =>
        var (s, key) := MixPsk(s, psk);
        match OpenField(s, key, en)
        case None => None
        case Some((_, s)) => Some(hs.(hash := s.hash, ck := s.ck))
  }

  datatype Keys = Keys(send: Key, recv: Key)

  function SessionKeys(ck: Key, initiator: bool): Keys {
    hide Kdf;
    if initiator then Keys(Kdf(ck, [], 1), Kdf(ck, [], 2)) else Keys(Kdf(ck, [], 2), Kdf(ck, [], 1))
  }

  // ---- Agreement ------------------------------------------------------------------------

  /** Both ends of a Diffie-Hellman exchange get the same secret: the property of X25519 used below. */
  predicate Commute(a: Key, b: Key) { X25519.Dh(a, Public(b)) == X25519.Dh(b, Public(a)) }

  /** The responder recovers who initiated, from an unmodified first message. */
  lemma StaticRecovered(si: Key, ei: Key, sr: Key, ss: Key, stamp: Stamp)
    requires Commute(ei, sr)
    requires Initiate(Public(si), ei, Public(sr), ss, stamp).Some?
    ensures var m := Initiate(Public(si), ei, Public(sr), ss, stamp).value;
      && |m.es| == 48 && |m.ets| == 28
      && ReadInitiation(sr, Public(sr), Public(si), ss, m.ue, m.es, m.ets)
         == Some((stamp, HandshakeState(m.ue, m.hs.hash, m.hs.ck)))
  {
    hide X25519.Dh, Hash, Kdf, SealField, OpenField;
    var s := MixEphemeral(ParamInit(Public(sr)), Public(ei));
    var (s1, key1) := MixDh(s, ei, Public(sr)).value;
    FieldOpens(s1, key1, Public(si));
    var (s2, key2) := MixSecret(SealField(s1, key1, Public(si)).1, ss).value;
    FieldOpens(s2, key2, stamp);
  }

  /** The initiator accepts an unmodified second message, and ends with the responder's chaining key and hash. */
  lemma ResponseAccepted(si: Key, ei: Key, er: Key, psk: Key, hash: Key, ck: Key)
    requires Commute(er, ei) && Commute(er, si)
    requires Respond(HandshakeState(Public(ei), hash, ck), er, Public(si), psk).Some?
    ensures var m := Respond(HandshakeState(Public(ei), hash, ck), er, Public(si), psk).value;
      ReadResponse(HandshakeState(ei, hash, ck), si, psk, m.ue, m.en) == Some(HandshakeState(ei, m.hs.hash, m.hs.ck))
  {
    hide X25519.Dh, Hash, Kdf, SealField, OpenField;
    var s := MixEphemeral(Symmetric(ck, hash), Public(er));
    var (s1, _) := MixDh(s, er, Public(ei)).value;
    var (s2, _) := MixDh(s1, er, Public(si)).value;
    var (s3, key) := MixPsk(s2, psk);
    FieldOpens(s3, key, []);
  }

  lemma KeysMirrored(ck: Key)
    ensures SessionKeys(ck, true).send == SessionKeys(ck, false).recv
    ensures SessionKeys(ck, true).recv == SessionKeys(ck, false).send
  {
    hide Kdf;
  }

  // ---- Timestamps -----------------------------------------------------------------------

  const GRAIN: nat := 0x100_0000

  function BE(s: seq<byte>): nat {
    if s == [] then 0 else 0x100 * BE(s[..|s| - 1]) + s[|s| - 1]
  }

  function BigEndian(x: nat, n: nat): (b: seq<byte>)
    ensures |b| == n
    decreases n
  {
    if n == 0 then [] else BigEndian(x / 0x100, n - 1) + [x % 0x100]
  }

  /** memcmp(a, b) < 0. */
  predicate Before(a: seq<byte>, b: seq<byte>)
    requires |a| == |b|
    decreases |a|
  {
    a != [] && (a[0] < b[0] || (a[0] == b[0] && Before(a[1..], b[1..])))
  }

  lemma {:induction false} BEBound(s: seq<byte>)
    ensures BE(s) < Pow2(8 * |s|)
  {
    if s != [] {
      BEBound(s[..|s| - 1]);
      Pow2Next8(8 * (|s| - 1));
    }
  }

  lemma {:induction false} BEHead(s: seq<byte>)
    requires s != []
    ensures BE(s) == s[0] * Pow2(8 * (|s| - 1)) + BE(s[1..])
  {
    if |s| == 1 {
      assert BE(s[..0]) == 0;
    } else {
      var k := |s| - 1;
      BEHead(s[..k]);
      assert s[..k][1..] == s[1..][..k - 1];
      Pow2Next8(8 * (k - 1));
      Regroup(s[0], Pow2(8 * (k - 1)));
    }
  }

  lemma Regroup(a: int, m: int)
    ensures 0x100 * (a * m) == a * (0x100 * m)
  {
  }

  lemma Gap(a: int, b: int, m: int)
    requires a < b && m >= 0
    ensures a * m + m <= b * m
  {
    assert (b - a - 1) * m >= 0;
  }

  lemma HeadDecides(a: int, b: int, m: int, x: int, y: int)
    requires 0 <= x < m && 0 <= y < m
    ensures a * m + x < b * m + y <==> a < b || (a == b && x < y)
  {
    if a < b {
      Gap(a, b, m);
    } else if b < a {
      Gap(b, a, m);
    }
  }

  /** Byte order of equally long strings is numeric order. */
  lemma {:induction false} BeforeIsLess(a: seq<byte>, b: seq<byte>)
    requires |a| == |b|
    ensures Before(a, b) <==> BE(a) < BE(b)
    decreases |a|
  {
    if a != [] {
      BEHead(a);
      BEHead(b);
      BEBound(a[1..]);
      BEBound(b[1..]);
      HeadDecides(a[0], b[0], Pow2(8 * (|a| - 1)), BE(a[1..]), BE(b[1..]));
      BeforeIsLess(a[1..], b[1..]);
    }
  }

  lemma {:induction false} BigEndianValue(x: nat, n: nat)
    requires x < Pow2(8 * n)
    ensures BE(BigEndian(x, n)) == x
    decreases n
  {
    if n > 0 {
      Pow2Next8(8 * (n - 1));
      BigEndianValue(x / 0x100, n - 1);
    }
  }

  lemma {:induction false} BEAppend(a: seq<byte>, b: seq<byte>)
    ensures BE(a + b) == BE(a) * Pow2(8 * |b|) + BE(b)
    decreases |b|
  {
    if b == [] {
      assert a + b == a;
    } else {
      var k := |b| - 1;
      assert (a + b)[..|a| + k] == a + b[..k];
      BEAppend(a, b[..k]);
      Pow2Next8(8 * k);
      Regroup(BE(a), Pow2(8 * k));
    }
  }

  const TAI_OFFSET: nat := 0x4000_0000_0000_000a

  /** The wall clock as TAI64N, with the low 24 bits of the nanoseconds cleared. */
  function Tai64n(sec: nat, nsec: nat): Stamp {
    BigEndian(TAI_OFFSET + sec, 8) + BigEndian(nsec / GRAIN * GRAIN, 4)
  }

  /** Seconds since the epoch of TAI64N, and nanoseconds cut to multiples of 2^24. */
  lemma StampValue(sec: nat, nsec: nat)
    requires sec < 0x8000_0000_0000_0000 && nsec < SECOND
    ensures BE(Tai64n(sec, nsec)) ==
      (0x4000_0000_0000_000a + sec) * 0x1_0000_0000 + nsec / 0x100_0000 * 0x100_0000
  {
    hide Pow2, BE, BigEndian;
    TwoTo64();
    TwoTo32();
    BigEndianValue(TAI_OFFSET + sec, 8);
    BigEndianValue(nsec / GRAIN * GRAIN, 4);
    BEAppend(BigEndian(TAI_OFFSET + sec, 8), BigEndian(nsec / GRAIN * GRAIN, 4));
  }

  /** Byte order of timestamps is time order, at a resolution of 2^24 ns within each second. */
  lemma StampOrder(sec: nat, nsec: nat, sec': nat, nsec': nat)
    requires sec < 0x8000_0000_0000_0000 && nsec < SECOND && sec' < 0x8000_0000_0000_0000 && nsec' < SECOND
    ensures Before(Tai64n(sec, nsec), Tai64n(sec', nsec')) <==>
      sec < sec' || (sec == sec' && nsec / 0x100_0000 < nsec' / 0x100_0000)
  {
    hide Before, BE, Tai64n;
    StampValue(sec, nsec);
    StampValue(sec', nsec');
    BeforeIsLess(Tai64n(sec, nsec), Tai64n(sec', nsec'));
  }

  /** Two clock readings at least 2^24 ns apart never give equal or reversed timestamps. */
  lemma StampsAdvance(sec: nat, nsec: nat, sec': nat, nsec': nat)
    requires sec < 0x8000_0000_0000_0000 && nsec < SECOND && sec' < 0x8000_0000_0000_0000 && nsec' < SECOND
    requires sec * SECOND + nsec + GRAIN <= sec' * SECOND + nsec'
    ensures Before(Tai64n(sec, nsec), Tai64n(sec', nsec'))
  {
    hide Before, Tai64n;
    StampOrder(sec, nsec, sec', nsec');
  }
}
