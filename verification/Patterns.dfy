/** The handshake as the Noise Protocol Framework (revision 34) builds it: message patterns as data, read
    token by token (sections 5 and 9), and the four messages of the code as instances of it. */
module Patterns {
  import opened Wrappers
  import opened Words
  import opened NoiseCrypto
  import opened Handshake
  import X25519
  import Aead

  // ---- Section 5: the objects -----------------------------------------------------------

  /** The chaining key, the hash, and the key with its nonce, if there is one. */
  datatype Cipher = Cipher(ck: Key, h: Key, k: Option<Key>, n: nat)

  /** HKDF outputs numbered as in section 4.3. */
  function MixKey(c: Cipher, input: seq<byte>): Cipher {
    hide Kdf;
    Cipher(Kdf(c.ck, input, 1), c.h, Some(Kdf(c.ck, input, 2)), 0)
  }

  function MixIn(c: Cipher, data: seq<byte>): Cipher { c.(h := Hash(c.h + data)) }

  function MixKeyAndHash(c: Cipher, input: seq<byte>): Cipher {
    hide Kdf, Hash;
    Cipher(Kdf(c.ck, input, 1), Hash(c.h + Kdf(c.ck, input, 2)), Some(Kdf(c.ck, input, 3)), 0)
  }

  function EncryptAndHash(c: Cipher, plain: seq<byte>): (seq<byte>, Cipher) {
    hide Aead.Seal, Hash;
    if c.k.None? then (plain, MixIn(c, plain))
    else
      var sealed := Aead.Seal(c.k.value, Aead.PacketNonce(c.n % 0x1_0000_0000_0000_0000), c.h, plain);
      (sealed, MixIn(c, sealed).(n := c.n + 1))
  }

  function DecryptAndHash(c: Cipher, data: seq<byte>): Option<(seq<byte>, Cipher)> {
    hide Aead.Open, Hash;
    if c.k.None? then Some((data, MixIn(c, data)))
    else
      match Aead.Open(c.k.value, Aead.PacketNonce(c.n % 0x1_0000_0000_0000_0000), c.h, data)
      case None => None
      case Some(plain) => Some((plain, MixIn(c, data).(n := c.n + 1)))
  }

  /** A party's own secret keys, and what it knows of the other's public keys. */
  datatype Party = Party(initiator: bool, s: Key, e: Key, rs: Option<Key>, re: Option<Key>, psk: Key)

  // ---- Section 7.5 and 9: the pattern ---------------------------------------------------

  datatype Token = E | S | EE | ES | SE | SS | PSK

  /** IKpsk2: the responder's static key is known before; then one message each way. */
  const OPENING: seq<Token> := [E, ES, S, SS]
  const ANSWER: seq<Token> := [E, EE, SE, PSK]

  const PROTOCOL: seq<byte> := Text("Noise_IKpsk2_25519_ChaChaPoly_BLAKE2s")
  const PROLOGUE: seq<byte> := Text("WireGuard v1 zx2c4 Jason@zx2c4.com")

  /** The name is longer than a hash; then the prologue and the responder's static key are mixed in. */
  function Initialized(responder: Key): Cipher {
    MixIn(MixIn(Cipher(Hash(PROTOCOL), Hash(PROTOCOL), None, 0), PROLOGUE), responder)
  }

  /** The secret that a token stands for: e and s are the initiator's key first, the responder's second. */
  function Secret(p: Party, t: Token): Option<Key> {
    match t
    case EE => if p.re.None? then None else Some(X25519.Dh(p.e, p.re.value))
    case SS => if p.rs.None? then None else Some(X25519.Dh(p.s, p.rs.value))
    case ES =>
      if p.initiator then (if p.rs.None? then None else Some(X25519.Dh(p.e, p.rs.value)))
      else (if p.re.None? then None else Some(X25519.Dh(p.s, p.re.value)))
    case SE =>
      if p.initiator then (if p.re.None? then None else Some(X25519.Dh(p.s, p.re.value)))
      else (if p.rs.None? then None else Some(X25519.Dh(p.e, p.rs.value)))
    case _ => None
  }

  /** A secret of all zeros ends the handshake. */
  function MixDhToken(c: Cipher, p: Party, t: Token): Option<Cipher> {
    match Secret(p, t)
    case None => None
    case Some(secret) => if secret == Zeros(32) then None else Some(MixKey(c, secret))
  }

  /** With a psk in the pattern, an ephemeral key is mixed into the chaining key as well. */
  function MixE(c: Cipher, e: Key): Cipher { MixKey(MixIn(c, e), e) }

  datatype Written = Written(fields: seq<seq<byte>>, c: Cipher)

  function Write(c: Cipher, p: Party, tokens: seq<Token>, payload: seq<byte>): Option<Written>
    decreases tokens
  {
    hide Public, MixE, EncryptAndHash, MixDhToken, MixKeyAndHash;
    if tokens == [] then
      var (data, c) := EncryptAndHash(c, payload); Some(Written([data], c))
    else
      match tokens[0]
      case E => Prefixed(Public(p.e), Write(MixE(c, Public(p.e)), p, tokens[1..], payload))
      case S =>
        var (data, c) := EncryptAndHash(c, Public(p.s));
        Prefixed(data, Write(c, p, tokens[1..], payload))
      case PSK => Write(MixKeyAndHash(c, p.psk), p, tokens[1..], payload)
      case t =>
        var mixed := MixDhToken(c, p, t);
        if mixed.None? then None else Write(mixed.value, p, tokens[1..], payload)
  }

  function Prefixed(field: seq<byte>, w: Option<Written>): Option<Written> {
    if w.None? then None else Some(Written([field] + w.value.fields, w.value.c))
  }

  datatype Understood = Understood(payload: seq<byte>, p: Party, c: Cipher)

  function Read(c: Cipher, p: Party, tokens: seq<Token>, fields: seq<seq<byte>>): Option<Understood>
    decreases tokens
  {
    hide MixE, DecryptAndHash, MixDhToken, MixKeyAndHash;
    if tokens == [] then
      if |fields| != 1 then None
      else
        match DecryptAndHash(c, fields[0])
        case None => None
        case Some((payload, c)) => Some(Understood(payload, p, c))
    else
      match tokens[0]
      case E =>
        if fields == [] || |fields[0]| != 32 then None
        else Read(MixE(c, fields[0]), p.(re := Some(fields[0])), tokens[1..], fields[1..])
      case S =>
        if fields == [] then None
        else
          var clear := DecryptAndHash(c, fields[0]);
          if clear.None? || |clear.value.0| != 32 then None
          else Read(clear.value.1, p.(rs := Some(clear.value.0)), tokens[1..], fields[1..])
      case PSK => Read(MixKeyAndHash(c, p.psk), p, tokens[1..], fields)
      case t =>
        var mixed := MixDhToken(c, p, t);
        if mixed.None? then None else Read(mixed.value, p, tokens[1..], fields)
  }

  // ---- The code's messages are these ----------------------------------------------------

  lemma WriteNext(c: Cipher, p: Party, t: Token, rest: seq<Token>, payload: seq<byte>)
    ensures Write(c, p, [t] + rest, payload) ==
      match t
      case E => Prefixed(Public(p.e), Write(MixE(c, Public(p.e)), p, rest, payload))
      case S => Prefixed(EncryptAndHash(c, Public(p.s)).0, Write(EncryptAndHash(c, Public(p.s)).1, p, rest, payload))
      case PSK => Write(MixKeyAndHash(c, p.psk), p, rest, payload)
      case _ => if MixDhToken(c, p, t).None? then None else Write(MixDhToken(c, p, t).value, p, rest, payload)
  {
    hide Prefixed, EncryptAndHash, MixE, MixKeyAndHash, MixDhToken;
    assert ([t] + rest)[1..] == rest;
  }

  lemma WriteLast(c: Cipher, p: Party, payload: seq<byte>)
    ensures Write(c, p, [], payload) == Some(Written([EncryptAndHash(c, payload).0], EncryptAndHash(c, payload).1))
  {
    hide EncryptAndHash;
  }

  lemma ReadEphemeral(c: Cipher, p: Party, e: Key, rest: seq<Token>, fields: seq<seq<byte>>)
    ensures Read(c, p, [E] + rest, [e] + fields) == Read(MixE(c, e), p.(re := Some(e)), rest, fields)
  {
    hide DecryptAndHash, MixE, MixKeyAndHash, MixDhToken;
    assert ([E] + rest)[1..] == rest && ([e] + fields)[1..] == fields;
  }

  lemma ReadSecret(c: Cipher, p: Party, t: Token, rest: seq<Token>, fields: seq<seq<byte>>)
    requires !t.E? && !t.S? && !t.PSK?
    ensures Read(c, p, [t] + rest, fields) ==
      if MixDhToken(c, p, t).None? then None else Read(MixDhToken(c, p, t).value, p, rest, fields)
  {
    hide DecryptAndHash, MixE, MixKeyAndHash, MixDhToken;
    assert ([t] + rest)[1..] == rest;
  }

  lemma ReadPsk(c: Cipher, p: Party, rest: seq<Token>, fields: seq<seq<byte>>)
    ensures Read(c, p, [PSK] + rest, fields) == Read(MixKeyAndHash(c, p.psk), p, rest, fields)
  {
    hide DecryptAndHash, MixE, MixKeyAndHash, MixDhToken;
    assert ([PSK] + rest)[1..] == rest;
  }

  lemma ReadField(c: Cipher, p: Party, rest: seq<Token>, field: seq<byte>, fields: seq<seq<byte>>)
    ensures Read(c, p, [S] + rest, [field] + fields) ==
      var clear := DecryptAndHash(c, field);
      if clear.None? || |clear.value.0| != 32 then None
      else Read(clear.value.1, p.(rs := Some(clear.value.0)), rest, fields)
  {
    hide DecryptAndHash, MixE, MixKeyAndHash, MixDhToken;
    assert ([S] + rest)[1..] == rest && ([field] + fields)[1..] == fields;
  }

  lemma ReadLast(c: Cipher, p: Party, data: seq<byte>)
    ensures Read(c, p, [], [data]) ==
      match DecryptAndHash(c, data)
      case None => None
      case Some((payload, c)) => Some(Understood(payload, p, c))
  {
    hide DecryptAndHash;
  }

  /** The state of the code, as a cipher under the key at hand. */
  function Keyed(s: Symmetric, key: Key): Cipher { Cipher(s.ck, s.hash, Some(key), 0) }

  lemma ParamsAre(responder: Key)
    ensures var c := Initialized(responder); ParamInit(responder) == Symmetric(c.ck, c.h) && c.k.None?
  {
    hide Hash, Text;
  }

  lemma EphemeralIs(c: Cipher, e: Key)
    ensures var s := MixEphemeral(Symmetric(c.ck, c.h), e); MixE(c, e).ck == s.ck && MixE(c, e).h == s.hash
  {
    hide Hash, Kdf;
  }

  lemma SecretIs(c: Cipher, secret: Key)
    ensures var r := MixSecret(Symmetric(c.ck, c.h), secret);
      (if secret == Zeros(32) then None else Some(MixKey(c, secret))) ==
      if r.None? then None else Some(Keyed(r.value.0, r.value.1))
  {
    hide Kdf;
  }

  lemma PskIs(c: Cipher, psk: Key)
    ensures var (s, key) := MixPsk(Symmetric(c.ck, c.h), psk); MixKeyAndHash(c, psk) == Keyed(s, key)
  {
    hide Kdf, Hash;
  }

  lemma SealIs(s: Symmetric, key: Key, plain: seq<byte>)
    ensures var (data, c) := EncryptAndHash(Keyed(s, key), plain);
      var (field, s') := SealField(s, key, plain);
      data == field && c.ck == s'.ck && c.h == s'.hash
  {
    hide Aead.Seal, Hash, Aead.PacketNonce;
  }

  lemma OpenIs(s: Symmetric, key: Key, data: seq<byte>)
    ensures var r, o := DecryptAndHash(Keyed(s, key), data), OpenField(s, key, data);
      && r.Some? == o.Some?
      && (r.Some? ==> r.value.0 == o.value.0 && r.value.1.ck == o.value.1.ck && r.value.1.h == o.value.1.hash)
  {
    hide Aead.Open, Hash, Aead.PacketNonce;
  }

  /** The same chaining key and hash. */
  predicate Agrees(c: Cipher, hs: HandshakeState) { c.ck == hs.ck && c.h == hs.hash }

  lemma InitiateIsPattern(s: Key, e: Key, responder: Key, stamp: Stamp, psk: Key)
    ensures var m := Initiate(Public(s), e, responder, X25519.Dh(s, responder), stamp);
      var w := Write(Initialized(responder), Party(true, s, e, Some(responder), None, psk), OPENING, stamp);
      && m.Some? == w.Some?
      && (m.Some? ==>
            w.value.fields == [m.value.ue, m.value.es, m.value.ets] && Agrees(w.value.c, m.value.hs) && m.value.hs.e == e)
  {
    hide Write, MixEphemeral, ParamInit, Initialized, MixE, X25519.Dh, EncryptAndHash, SealField, MixSecret, MixKey;
    hide Public, MixKeyAndHash;
    var p, ue := Party(true, s, e, Some(responder), None, psk), Public(e);
    var c0 := Initialized(responder);
    var c1 := MixE(c0, ue);
    ParamsAre(responder);
    EphemeralIs(c0, ue);
    var s1 := MixEphemeral(ParamInit(responder), ue);
    SecretIs(c1, X25519.Dh(e, responder));
    assert OPENING == [E] + ([ES] + ([S] + ([SS] + [])));
    WriteNext(c0, p, E, [ES] + ([S] + ([SS] + [])), stamp);
    WriteNext(c1, p, ES, [S] + ([SS] + []), stamp);
    if X25519.Dh(e, responder) != Zeros(32) {
      var (s2, k2) := MixSecret(s1, X25519.Dh(e, responder)).value;
      WriteNext(Keyed(s2, k2), p, S, [SS] + [], stamp);
      SealIs(s2, k2, Public(s));
      var c3, s3 := EncryptAndHash(Keyed(s2, k2), Public(s)).1, SealField(s2, k2, Public(s)).1;
      SecretIs(c3, X25519.Dh(s, responder));
      WriteNext(c3, p, SS, [], stamp);
      if X25519.Dh(s, responder) != Zeros(32) {
        var (s4, k4) := MixSecret(s3, X25519.Dh(s, responder)).value;
        WriteLast(Keyed(s4, k4), p, stamp);
        SealIs(s4, k4, stamp);
      }
    }
  }

  /** The second half of the first message: the proof of the static key, and the timestamp. */
  lemma ReadProof(s: Symmetric, c: Cipher, p: Party, ue: Key, ets: seq<byte>)
    requires |ets| == 28 && c.ck == s.ck && c.h == s.hash && p.rs.Some?
    ensures var m, r := ReadStamp(s, X25519.Dh(p.s, p.rs.value), ue, ets), Read(c, p, [SS] + [], [ets]);
      && m.Some? == r.Some?
      && (m.Some? ==>
            && r.value.payload == m.value.0 && Agrees(r.value.c, m.value.1) && r.value.p == p && m.value.1.e == ue)
  {
    hide Read, X25519.Dh, DecryptAndHash, OpenField, MixSecret, MixKey;
    var secret := X25519.Dh(p.s, p.rs.value);
    ReadSecret(c, p, SS, [], [ets]);
    SecretIs(c, secret);
    assert s == Symmetric(c.ck, c.h);
    if secret != Zeros(32) {
      var (s2, k2) := MixSecret(s, secret).value;
      ReadLast(Keyed(s2, k2), p, ets);
      OpenIs(s2, k2, ets);
    }
  }

  /** A peer's first message is read exactly when the pattern reads it and its static key is the peer's. */
  lemma ReadInitiationIsPattern(s: Key, peer: Key, ue: Key, es: seq<byte>, ets: seq<byte>, e: Key, psk: Key)
    requires |ets| == 28
    ensures var m := ReadInitiation(s, Public(s), peer, X25519.Dh(s, peer), ue, es, ets);
      var r := Read(Initialized(Public(s)), Party(false, s, e, None, None, psk), OPENING, [ue, es, ets]);
      && (m.Some? <==> r.Some? && r.value.p.rs == Some(peer))
      && (m.Some? ==>
            r.value.payload == m.value.0 && Agrees(r.value.c, m.value.1) && r.value.p.re == Some(m.value.1.e))
  {
    hide Read, MixEphemeral, ParamInit, Initialized, MixE, X25519.Dh, DecryptAndHash, OpenField, MixSecret, MixKey;
    hide Public, MixKeyAndHash;
    var p := Party(false, s, e, None, None, psk);
    var c0, fields := Initialized(Public(s)), [ue, es, ets];
    var c1, p1 := MixE(c0, ue), p.(re := Some(ue));
    ParamsAre(Public(s));
    EphemeralIs(c0, ue);
    SecretIs(c1, X25519.Dh(s, ue));
    assert OPENING == [E] + ([ES] + ([S] + ([SS] + [])));
    assert fields == [ue] + ([es] + [ets]);
    ReadEphemeral(c0, p, ue, [ES] + ([S] + ([SS] + [])), [es] + [ets]);
    ReadSecret(c1, p1, ES, [S] + ([SS] + []), [es] + [ets]);
    if X25519.Dh(s, ue) != Zeros(32) {
      var (s2, k2) := MixSecret(MixEphemeral(ParamInit(Public(s)), ue), X25519.Dh(s, ue)).value;
      ReadField(Keyed(s2, k2), p1, [SS] + [], es, [ets]);
      OpenIs(s2, k2, es);
      var o := OpenField(s2, k2, es);
      if o.Some? && |o.value.0| == 32 {
        ReadProof(o.value.1, DecryptAndHash(Keyed(s2, k2), es).value.1, p1.(rs := Some(o.value.0)), ue, ets);
      }
    }
  }

  lemma RespondIsPattern(hs: HandshakeState, s: Key, e: Key, initiator: Key, psk: Key, c: Cipher)
    requires Agrees(c, hs)
    ensures var m := Respond(hs, e, initiator, psk);
      var w := Write(c, Party(false, s, e, Some(initiator), Some(hs.e), psk), ANSWER, []);
      && m.Some? == w.Some?
      && (m.Some? ==> w.value.fields == [m.value.ue, m.value.en] && Agrees(w.value.c, m.value.hs))
  {
    hide Write, MixEphemeral, MixE, X25519.Dh, EncryptAndHash, SealField, MixSecret, MixPsk, MixKey;
    hide Public, MixKeyAndHash;
    var p, ue := Party(false, s, e, Some(initiator), Some(hs.e), psk), Public(e);
    var c1, s1 := MixE(c, ue), MixEphemeral(Symmetric(hs.ck, hs.hash), ue);
    EphemeralIs(c, ue);
    SecretIs(c1, X25519.Dh(e, hs.e));
    assert ANSWER == [E] + ([EE] + ([SE] + ([PSK] + [])));
    WriteNext(c, p, E, [EE] + ([SE] + ([PSK] + [])), []);
    WriteNext(c1, p, EE, [SE] + ([PSK] + []), []);
    if X25519.Dh(e, hs.e) != Zeros(32) {
      var (s2, k2) := MixSecret(s1, X25519.Dh(e, hs.e)).value;
      var c2 := Keyed(s2, k2);
      SecretIs(c2, X25519.Dh(e, initiator));
      WriteNext(c2, p, SE, [PSK] + [], []);
      if X25519.Dh(e, initiator) != Zeros(32) {
        var (s3, k3) := MixSecret(s2, X25519.Dh(e, initiator)).value;
        WriteNext(Keyed(s3, k3), p, PSK, [], []);
        PskIs(Keyed(s3, k3), psk);
        var (s4, k4) := MixPsk(s3, psk);
        WriteLast(Keyed(s4, k4), p, []);
        SealIs(s4, k4, []);
      }
    }
  }

  lemma ReadResponseIsPattern(hs: HandshakeState, s: Key, psk: Key, ue: Key, en: seq<byte>, rs: Option<Key>, c: Cipher)
    requires Agrees(c, hs)
    ensures var m := ReadResponse(hs, s, psk, ue, en);
      var r := Read(c, Party(true, s, hs.e, rs, None, psk), ANSWER, [ue, en]);
      m.Some? == r.Some? && (m.Some? ==> Agrees(r.value.c, m.value))
  {
    hide Read, MixEphemeral, MixE, X25519.Dh, DecryptAndHash, OpenField, MixSecret, MixPsk, MixKey;
    hide Public, MixKeyAndHash;
    var p := Party(true, s, hs.e, rs, None, psk);
    var p1 := p.(re := Some(ue));
    var c1, s1 := MixE(c, ue), MixEphemeral(Symmetric(hs.ck, hs.hash), ue);
    EphemeralIs(c, ue);
    SecretIs(c1, X25519.Dh(hs.e, ue));
    assert ANSWER == [E] + ([EE] + ([SE] + ([PSK] + []))) && [ue, en] == [ue] + [en];
    ReadEphemeral(c, p, ue, [EE] + ([SE] + ([PSK] + [])), [en]);
    ReadSecret(c1, p1, EE, [SE] + ([PSK] + []), [en]);
    if X25519.Dh(hs.e, ue) != Zeros(32) {
      var (s2, k2) := MixSecret(s1, X25519.Dh(hs.e, ue)).value;
      var c2 := Keyed(s2, k2);
      SecretIs(c2, X25519.Dh(s, ue));
      ReadSecret(c2, p1, SE, [PSK] + [], [en]);
      if X25519.Dh(s, ue) != Zeros(32) {
        var (s3, k3) := MixSecret(s2, X25519.Dh(s, ue)).value;
        ReadPsk(Keyed(s3, k3), p1, [], [en]);
        PskIs(Keyed(s3, k3), psk);
        var (s4, k4) := MixPsk(s3, psk);
        ReadLast(Keyed(s4, k4), p1, en);
        OpenIs(s4, k4, en);
      }
    }
  }

  /** Split of section 5.2: the initiator sends with the first key, the responder with the second. */
  function Split(c: Cipher): (Key, Key) { (Kdf(c.ck, [], 1), Kdf(c.ck, [], 2)) }

  lemma KeysAreSplit(c: Cipher)
    ensures SessionKeys(c.ck, true) == Keys(Split(c).0, Split(c).1)
    ensures SessionKeys(c.ck, false) == Keys(Split(c).1, Split(c).0)
  {
    hide Kdf;
  }
}
