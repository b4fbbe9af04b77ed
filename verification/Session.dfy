/** One interface: the peer table, the tries that route by it, and the path of a data packet. */
module WgSession {
  import opened Wrappers
  import opened Words
  import opened NoiseCrypto
  import opened Handshake
  import opened Peers
  import AllowedIps
  import Aead
  import Keypairs
  import Noise
  import X25519
  import ReplayWindow

  // ---- Packets --------------------------------------------------------------------------

  const TYPE_DATA: seq<byte> := [4, 0, 0, 0]
  const MAX_PLAIN: nat := 2000

  function Padded(n: nat): nat { if n == 0 then 16 else (n + 15) / 16 * 16 }

  /** The length that the header of an IP packet claims, if the buffer holds that much. */
  function InnerLength(p: seq<byte>): (n: Option<nat>)
    ensures n.Some? ==> 20 <= n.value <= |p|
  {
    if |p| < 1 then None
    else if p[0] / 16 == 4 then
      if |p| < 20 then None
      else
        var total: int := 256 * (p[2] as int) + p[3];
        if total < 20 || total > |p| then None else Some(total)
    else if p[0] / 16 == 6 then
      if |p| < 40 then None
      else
        var total: int := 256 * (p[4] as int) + p[5] + 40;
        if total > |p| then None else Some(total)
    else None
  }

  datatype Location = Location(family: Family, bytes: seq<byte>)
  type Address = a: Location | 8 * |a.bytes| == MaxBits(a.family) witness Location(V4, [0, 0, 0, 0])

  function Destination(p: seq<byte>): Option<Address> {
    if |p| < 1 then None
    else if p[0] / 16 == 4 && |p| >= 20 then Some(Location(V4, p[16..20]))
    else if p[0] / 16 == 6 && |p| >= 40 then Some(Location(V6, p[24..40]))
    else None
  }

  function Source(p: seq<byte>): Option<Address> {
    if |p| < 1 then None
    else if p[0] / 16 == 4 && |p| >= 20 then Some(Location(V4, p[12..16]))
    else if p[0] / 16 == 6 && |p| >= 40 then Some(Location(V6, p[8..24]))
    else None
  }

  /** Section 3.1 of RFC 791: twelve bytes, with the version in the upper half of the first and the total
      length in the third and fourth, then the source address, then the destination address. */
  lemma FourHeader(h: seq<byte>, src: seq<byte>, dst: seq<byte>, rest: seq<byte>)
    requires |h| == 12 && h[0] / 16 == 4 && |src| == 4 && |dst| == 4
    ensures var p, total := h + src + dst + rest, 256 * (h[2] as int) + h[3];
      && Source(p) == Some(Location(V4, src)) && Destination(p) == Some(Location(V4, dst))
      && InnerLength(p) == if 20 <= total <= |p| then Some(total) else None
  {
    var p := h + src + dst + rest;
    assert p[12..16] == src && p[16..20] == dst;
  }

  /** Section 3 of RFC 8200: eight bytes, with the version in the upper half of the first and the length of
      what follows the header of forty bytes in the fifth and sixth, then the two addresses. */
  lemma SixHeader(h: seq<byte>, src: seq<byte>, dst: seq<byte>, rest: seq<byte>)
    requires |h| == 8 && h[0] / 16 == 6 && |src| == 16 && |dst| == 16
    ensures var p, total := h + src + dst + rest, 256 * (h[4] as int) + h[5] + 40;
      && Source(p) == Some(Location(V6, src)) && Destination(p) == Some(Location(V6, dst))
      && InnerLength(p) == if total <= |p| then Some(total) else None
  {
    var p := h + src + dst + rest;
    assert p[8..24] == src && p[24..40] == dst;
  }

  /** Anything shorter, or of another version, has no addresses and is no packet. */
  lemma NoHeader(p: seq<byte>)
    requires p == [] || (p[0] / 16 == 4 && |p| < 20) || (p[0] / 16 == 6 && |p| < 40) || (p[0] / 16 != 4 && p[0] / 16 != 6)
    ensures Source(p) == None && Destination(p) == None && InnerLength(p) == None
  {
  }

  function Owner(peers: seq<Slot>, a: Option<Address>): Option<int> {
    if a.None? then None else Routed(peers, a.value.family, a.value.bytes)
  }

  function Header(rIdx: u32, nonce: u64): (h: seq<byte>)
    ensures |h| == 16
  {
    TYPE_DATA + ShiftBytes(rIdx, 4) + ShiftBytes(nonce, 8)
  }

  function PadPlain(plain: seq<byte>): (m: seq<byte>)
    ensures |m| == Padded(|plain|)
  {
    plain + Zeros(Padded(|plain|) - |plain|)
  }

  /** The datagram that carries `plain`. */
  function Datagram(key: Key, rIdx: u32, nonce: u64, plain: seq<byte>): seq<byte> {
    Header(rIdx, nonce) + Aead.Seal(key, Aead.PacketNonce(nonce), [], PadPlain(plain))
  }

  function ReadIndex(d: seq<byte>): u32
    requires |d| >= 32
  {
    Le32(d[4..8])
  }

  function ReadNonce(d: seq<byte>): u64
    requires |d| >= 32
  {
    LEBound(d[8..16]);
    TwoTo64();
    LE(d[8..16])
  }

  function Opened(key: Key, d: seq<byte>): Option<seq<byte>>
    requires |d| >= 32
  {
    Aead.Open(key, Aead.PacketNonce(ReadNonce(d)), [], d[16..])
  }

  predicate WholePacket(p: seq<byte>) { InnerLength(p) == Some(|p|) }

  lemma HeaderReads(key: Key, rIdx: u32, nonce: u64, plain: seq<byte>)
    ensures var d := Datagram(key, rIdx, nonce, plain);
      && |d| == 32 + Padded(|plain|) && d[..4] == [4, 0, 0, 0] && LE(d[4..8]) == rIdx && LE(d[8..16]) == nonce
      && ReadIndex(d) == rIdx && ReadNonce(d) == nonce
    ensures Opened(key, Datagram(key, rIdx, nonce, plain)) == Some(PadPlain(plain))
  {
    var d := Datagram(key, rIdx, nonce, plain);
    hide LE, Pow2, ShiftBytes, Le32, Aead.Seal, Aead.Open, Aead.PacketNonce;
    ShiftBytesValue(rIdx, 4);
    ShiftBytesValue(nonce, 8);
    TwoTo32();
    TwoTo64();
    assert d[4..8] == ShiftBytes(rIdx, 4) && d[8..16] == ShiftBytes(nonce, 8);
    assert d[16..] == Aead.Seal(key, Aead.PacketNonce(nonce), [], PadPlain(plain));
    Aead.OpenIffSealed(key, Aead.PacketNonce(nonce), [], d[16..], PadPlain(plain));
  }

  /** Padding goes up to the next multiple of sixteen; nothing at all becomes sixteen zeros. */
  lemma PaddingIs(plain: seq<byte>)
    ensures |PadPlain(plain)| % 16 == 0 && |PadPlain(plain)| >= 16 && PadPlain(plain)[..|plain|] == plain
    ensures plain != [] ==> |PadPlain(plain)| < |plain| + 16
    ensures forall i :: |plain| <= i < |PadPlain(plain)| ==> PadPlain(plain)[i] == 0
  {
  }

  /** The padding that a packet travels with is cut off again, and nothing of the packet with it. */
  lemma PaddingIsCut(p: seq<byte>, z: seq<byte>)
    requires WholePacket(p)
    ensures InnerLength(p + z) == Some(|p|) && (p + z)[..|p|] == p
  {
  }

  // ---- The link between slots and the noise layer ---------------------------------------

  type Remotes = map<RemoteId, Keypairs.Remote>
  type World = Keypairs.World

  ghost predicate SlotLinked(p: Slot, i: int, remotes: Remotes, arg: map<RemoteId, nat>) {
    && p.remote.Some? && p.remote.value in remotes && p.remote.value in arg && arg[p.remote.value] == i
    && var peer := remotes[p.remote.value].peer; peer.public == p.pubkey && peer.psk == p.psk && peer.enabled
  }

  /** Every active slot has an enabled remote with its keys, the enabled remotes are those of the
      active slots, and every remote leads back to a slot. */
  ghost predicate Linked(peers: seq<Slot>, remotes: Remotes, arg: map<RemoteId, nat>) {
    && (forall i :: 0 <= i < |peers| && peers[i].active ==> SlotLinked(peers[i], i, remotes, arg))
    && arg.Keys == remotes.Keys && (forall r <- arg :: arg[r] < |peers|)
    && (forall r <- remotes :: remotes[r].peer.enabled ==> peers[arg[r]].active && peers[arg[r]].remote == Some(r))
  }

  /** While the active peers have distinct keys, a public key stands for one remote. */
  lemma KeysIdentify(peers: seq<Slot>, remotes: Remotes, arg: map<RemoteId, nat>, r: RemoteId, s: RemoteId)
    requires Linked(peers, remotes, arg) && Distinct(peers)
    requires r in remotes && s in remotes && remotes[r].peer.enabled && remotes[s].peer.enabled
    requires remotes[r].peer.public == remotes[s].peer.public
    ensures r == s
  {
    assert SlotLinked(peers[arg[r]], arg[r], remotes, arg) && SlotLinked(peers[arg[s]], arg[s], remotes, arg);
  }

  /** A keypair counts for the peer it was agreed with exactly while that peer's remote is enabled;
      when the peer has been removed, it counts for whoever has the slot now. */
  lemma CountsForItsPeer(peers: seq<Slot>, remotes: Remotes, arg: map<RemoteId, nat>, r: RemoteId)
    requires Linked(peers, remotes, arg) && r in remotes
    ensures r in arg && arg[r] < |peers|
    ensures peers[arg[r]].active && peers[arg[r]].remote == Some(r) <==> remotes[r].peer.enabled
  {
    var i := arg[r];
    assert peers[i].active ==> SlotLinked(peers[i], i, remotes, arg);
  }

  /** Remotes keep their slots in the noise layer and the peer they were allocated for, and a remote
      that was taken out of service stays out. */
  ghost predicate Continues(remotes: Remotes, arg: map<RemoteId, nat>, remotes': Remotes, arg': map<RemoteId, nat>) {
    && remotes.Keys <= arg.Keys && remotes.Keys <= remotes'.Keys && remotes'.Keys <= arg'.Keys
    && (forall r <- remotes ::
          && remotes'[r] == remotes[r].(peer := remotes'[r].peer) && arg'[r] == arg[r]
          && (remotes'[r].peer.enabled ==> remotes[r].peer.enabled))
  }

  lemma ContinuesOn(a: Remotes, aa: map<RemoteId, nat>, b: Remotes, ba: map<RemoteId, nat>, c: Remotes,
                    ca: map<RemoteId, nat>)
    requires Continues(a, aa, b, ba) && Continues(b, ba, c, ca)
    ensures Continues(a, aa, c, ca)
  {
    forall r | r in a ensures c[r] == a[r].(peer := c[r].peer) && ca[r] == aa[r] && (c[r].peer.enabled ==> a[r].peer.enabled) {
      assert r in b;
    }
  }

  lemma LinksAdded(peers: seq<Slot>, remotes: Remotes, arg: map<RemoteId, nat>, i: nat, p: Slot, r: RemoteId,
                   l: Keypairs.Remote)
    requires Linked(peers, remotes, arg) && i <= |peers| && (i < |peers| ==> !peers[i].active) && r !in remotes
    requires p.active && SlotLinked(p, i, map[r := l], map[r := i]) && p.remote == Some(r)
    ensures Linked(Place(peers, i, p), remotes[r := l], arg[r := i])
  {
  }

  /** A slot and its remote change together. */
  lemma LinksEdited(peers: seq<Slot>, remotes: Remotes, arg: map<RemoteId, nat>, i: nat, p: Slot, r: RemoteId,
                    l: Keypairs.Remote)
    requires Linked(peers, remotes, arg) && i < |peers| && peers[i].active && peers[i].remote == Some(r)
    requires if p.active then SlotLinked(p, i, map[r := l], map[r := i]) && p.remote == Some(r) else !l.peer.enabled
    ensures r in remotes && Linked(peers[i := p], remotes[r := l], arg)
  {
    assert SlotLinked(peers[i], i, remotes, arg);
  }

  /** Fields that the noise layer does not see. */
  lemma LinksKept(peers: seq<Slot>, remotes: Remotes, arg: map<RemoteId, nat>, i: nat, p: Slot)
    requires Linked(peers, remotes, arg) && i < |peers|
    requires var q := peers[i]; p.active == q.active && p.remote == q.remote && p.pubkey == q.pubkey && p.psk == q.psk
    ensures Linked(peers[i := p], remotes, arg)
  {
  }

  /** The links are about what a remote holds for the handshake, not about its keypairs. */
  lemma LinksByPeer(peers: seq<Slot>, remotes: Remotes, remotes': Remotes, arg: map<RemoteId, nat>)
    requires Linked(peers, remotes, arg) && remotes'.Keys == remotes.Keys
    requires forall r <- remotes :: remotes'[r].peer == remotes[r].peer
    ensures Linked(peers, remotes', arg)
  {
    forall i | 0 <= i < |peers| && peers[i].active ensures SlotLinked(peers[i], i, remotes', arg) {
      assert SlotLinked(peers[i], i, remotes, arg);
      var r := peers[i].remote.value;
      assert r in remotes;
      assert remotes'[r].peer == remotes[r].peer;
    }
  }

  /** Routes are made of the blocks of the active peers only. */
  lemma {:induction false} RoutesKept(peers: seq<Slot>, peers': seq<Slot>, f: Family)
    requires |peers| == |peers'|
    requires forall i :: 0 <= i < |peers| ==> peers'[i].active == peers[i].active && peers'[i].allowed == peers[i].allowed
    ensures Routes(peers', f) == Routes(peers, f)
    decreases |peers|
  {
    if peers != [] {
      RoutesKept(peers[..|peers| - 1], peers'[..|peers| - 1], f);
    }
  }

  // ---- The session ----------------------------------------------------------------------

  predicate NoRepeats(memory: seq<int>) { forall i, j :: 0 <= i < j < |memory| ==> memory[i] != memory[j] }

  /** Nodes for 8 times 16 prefixes of the greatest length, each with a root of its own. */
  const MEMORY4: nat := 4224
  const MEMORY6: nat := 16512

  /** Every line would allocate its remote at an address of its own. */
  ghost predicate Allocates(lines: seq<Line>, used: set<RemoteId>) {
    && (forall n :: 0 <= n < |lines| && lines[n].PublicKey? ==> lines[n].alloc !in used)
    && (forall m, n :: 0 <= m < n < |lines| && lines[m].PublicKey? && lines[n].PublicKey? ==> lines[m].alloc != lines[n].alloc)
  }

  class Session {
    var peers: seq<Slot>
    var port: int
    var v4: AllowedIps.Trie
    var v6: AllowedIps.Trie
    const noise: Noise.Local
    var counters: map<Keypairs.Id, ReplayWindow.Counters>
    /** Which slot a remote was allocated for. */
    var arg: map<RemoteId, nat>

    ghost predicate Routing()
      reads this`peers, this`v4, this`v6, v4, v6
    {
      && v4 != v6 && v4.Valid() && v6.Valid() && v4.maxBits == 32 && v6.maxBits == 128
      && v4.table == Routes(peers, V4) && v6.table == Routes(peers, V6)
    }

    /** All but the tries, which are behind while a command is carried out. */
    ghost predicate Configured()
      reads this`peers, this`arg, noise
    {
      Bounded(peers) && noise.Valid() && Linked(peers, noise.remotes, arg)
    }

    /** Every keypair has counters of its own. */
    ghost predicate Counted()
      reads this`counters, counters.Values`canSend, counters.Values`nonceSend, counters.Values`issued
    {
      && (forall k <- counters :: counters[k].Counting())
      && (forall j, k :: j in counters && k in counters && counters[j] == counters[k] ==> j == k)
    }

    ghost predicate Tracked()
      reads this`counters, noise`keypairs
    {
      noise.keypairs.Keys <= counters.Keys
    }

    ghost predicate Valid()
      reads this, noise, v4, v6, counters.Values
    {
      Configured() && Routing() && Counted() && Tracked()
    }

    constructor ()
      ensures Configured() && Counted() && peers == [] && port == 0 && fresh(noise)
      ensures noise.remotes == map[] && noise.keypairs == map[]
    {
      noise := new Noise.Local();
      peers, port, counters, arg := [], 0, map[], map[];
      v4 := new AllowedIps.Trie(32);
      v6 := new AllowedIps.Trie(128);
      new;
      assert Linked([], map[], map[]);
      hide Linked, Noise.Local.Valid, AllowedIps.Trie.Valid, ReplayWindow.Counters.Valid;
    }

    /** Takes on the peers of an accepted configuration; allocations do not fail. */
    method Configure(key: Key, configured: seq<Slot>, port: int, memory4: seq<int>, memory6: seq<int>)
      requires Configured() && Counted() && peers == [] && noise.remotes == map[] && noise.keypairs == map[]
      requires Bounded(configured) && NoRepeats(memory4) && NoRepeats(memory6)
      requires forall i :: 0 <= i < |configured| ==> configured[i].active && configured[i].remote.Some?
      requires forall i, j :: 0 <= i < j < |configured| ==> configured[i].remote != configured[j].remote
      requires |memory4| >= MEMORY4 && |memory6| >= MEMORY6
      modifies this, noise
      ensures Valid() && peers == configured && this.port == port && fresh(v4) && fresh(v6)
      ensures noise.hasIdentity && noise.public == Public(noise.priv)
    {
      hide Noise.Local.Valid, Routing, Counted, X25519.Clamp, X25519.Dh, Linked;
      this.port := port;
      noise.SetIdentity(key);
      AttachAll(configured);
      RebuildRoutes(memory4, memory6);
    }

    function State(cur: Option<nat>): State
      reads this
    {
      Peers.State.State(peers, port, cur)
    }

    lemma Known()
      requires Configured()
      ensures Bounded(peers) && Keypairs.Inv(noise.View())
    {
      hide Linked, Keypairs.Inv;
    }

    lemma Steady()
      requires Configured()
      ensures Continues(noise.remotes, arg, noise.remotes, arg)
    {
      hide Noise.Local.Valid;
    }

    /** Gives a slot the peer p: its remote is allocated and enabled, and told the pre-shared key. */
    method Attach(i: nat, p: Slot)
      requires Configured() && i <= |peers| && i < MAX_PEERS && (i < |peers| ==> !peers[i].active)
      requires p.active && p.remote.Some? && p.remote.value !in noise.remotes && |p.allowed| <= MAX_CIDRS
      modifies this`peers, this`arg, noise`remotes, noise`history
      ensures Configured() && peers == Place(old(peers), i, p)
      ensures noise.remotes.Keys == old(noise.remotes.Keys) + {p.remote.value}
      ensures Continues(old(noise.remotes), old(arg), noise.remotes, arg)
    {
      hide Noise.Local.Valid;
      var r := p.remote.value;
      ghost var remotes := noise.remotes;
      noise.RemoteAlloc(r, p.pubkey);
      var peer := noise.remotes[r].peer;
      noise.SetPeerOf(r, peer.(enabled := true, psk := p.psk));
      LinksAdded(peers, remotes, arg, i, p, r, noise.remotes[r]);
      assert noise.remotes == remotes[r := noise.remotes[r]];
      hide Linked;
      peers := Place(peers, i, p);
      arg := arg[r := i];
    }

    method AttachAll(configured: seq<Slot>)
      requires Configured() && peers == [] && noise.remotes == map[] && Bounded(configured)
      requires forall i :: 0 <= i < |configured| ==> configured[i].active && configured[i].remote.Some?
      requires forall i, j :: 0 <= i < j < |configured| ==> configured[i].remote != configured[j].remote
      modifies this`peers, this`arg, noise`remotes, noise`history
      ensures Configured() && peers == configured
    {
      hide Configured;
      for i := 0 to |configured|
        invariant Configured() && peers == configured[..i]
        invariant forall j :: i <= j < |configured| ==> configured[j].remote.value !in noise.remotes
      {
        assert configured[..i + 1] == configured[..i] + [configured[i]];
        Attach(i, configured[i]);
      }
      assert configured[..|configured|] == configured;
    }

    // ---- Routes -------------------------------------------------------------------------

    /** Enters the blocks of one slot. */
    method InsertBlocks(i: nat, memory4: seq<int>, memory6: seq<int>) returns (left4: seq<int>, left6: seq<int>)
      requires Bounded(peers) && i < |peers| && v4 != v6 && v4.Valid() && v6.Valid() && v4.maxBits == 32
      requires v6.maxBits == 128
      requires v4.Available(memory4) && v6.Available(memory6) && |memory4| >= 528 && |memory6| >= 2064
      modifies v4, v6
      ensures v4.Valid() && v6.Valid() && v4.Available(left4) && v6.Available(left6)
      ensures |left4| >= |memory4| - 528 && |left6| >= |memory6| - 2064
      ensures v4.table == AddRoutes(old(v4.table), i, peers[i].allowed, V4)
      ensures v6.table == AddRoutes(old(v6.table), i, peers[i].allowed, V6)
    {
      hide AllowedIps.Trie.Valid, AllowedIps.Bits;
      left4, left6 := memory4, memory6;
      var cidrs := peers[i].allowed;
      for j := 0 to |cidrs|
        invariant v4.Valid() && v6.Valid() && v4.Available(left4) && v6.Available(left6)
        invariant |left4| >= |memory4| - 33 * j && |left6| >= |memory6| - 129 * j
        invariant v4.table == AddRoutes(old(v4.table), i, cidrs[..j], V4)
        invariant v6.table == AddRoutes(old(v6.table), i, cidrs[..j], V6)
      {
        assert cidrs[..j + 1][..j] == cidrs[..j];
        var c: Cidr := cidrs[j];
        var ok;
        if c.family == V4 {
          ok, left4 := v4.Insert(c.addr, c.len, Some(i), left4);
        } else {
          ok, left6 := v6.Insert(c.addr, c.len, Some(i), left6);
        }
      }
      assert cidrs[..|cidrs|] == cidrs;
    }

    /** Fresh tries, filled from the active peers in the order of their slots. */
    method RebuildRoutes(memory4: seq<int>, memory6: seq<int>)
      requires Bounded(peers) && NoRepeats(memory4) && NoRepeats(memory6)
      requires |memory4| >= MEMORY4 && |memory6| >= MEMORY6
      modifies this`v4, this`v6
      ensures Routing() && fresh(v4) && fresh(v6)
    {
      hide AllowedIps.Trie.Valid;
      v4 := new AllowedIps.Trie(32);
      v6 := new AllowedIps.Trie(128);
      var left4, left6 := memory4, memory6;
      for i := 0 to |peers|
        modifies v4, v6
        invariant v4.Valid() && v6.Valid() && v4.Available(left4) && v6.Available(left6)
        invariant |left4| >= 528 * (8 - i) && |left6| >= 2064 * (8 - i)
        invariant v4.table == Routes(peers[..i], V4) && v6.table == Routes(peers[..i], V6)
      {
        assert peers[..i + 1][..i] == peers[..i];
        if peers[i].active {
          left4, left6 := InsertBlocks(i, left4, left6);
        }
      }
      assert peers[..|peers|] == peers;
    }

    // ---- Runtime commands ---------------------------------------------------------------

    method FindPeer(key: Key) returns (i: Option<nat>)
      ensures i == FindFrom(peers, key, 0)
    {
      for n := 0 to |peers|
        invariant FindFrom(peers, key, 0) == FindFrom(peers, key, n)
      {
        if peers[n].active && peers[n].pubkey == key {
          return Some(n);
        }
      }
      return None;
    }

    method AllocSlot() returns (i: Option<nat>)
      ensures i == FreeFrom(peers, 0)
    {
      for n := 0 to |peers|
        invariant FreeFrom(peers, 0) == FreeFrom(peers, n)
      {
        if !peers[n].active {
          return Some(n);
        }
      }
      if |peers| >= MAX_PEERS {
        return None;
      }
      return Some(|peers|);
    }

    /** Takes the peer's remote out of service and clears the slot. */
    method Tombstone(i: nat)
      requires Configured() && i < |peers| && peers[i].active
      modifies this`peers, noise`remotes
      ensures Configured() && peers == old(peers)[i := TOMBSTONE] && noise.remotes.Keys == old(noise.remotes.Keys)
      ensures Continues(old(noise.remotes), arg, noise.remotes, arg)
      ensures old(peers[i].remote.Some?) && old(peers[i].remote.value) in noise.remotes
      ensures !noise.remotes[old(peers[i].remote.value)].peer.enabled
    {
      hide Noise.Local.Valid;
      var r := peers[i].remote.value;
      ghost var remotes := noise.remotes;
      noise.SetPeerOf(r, noise.remotes[r].peer.(enabled := false));
      LinksEdited(peers, remotes, arg, i, TOMBSTONE, r, noise.remotes[r]);
      hide Linked;
      peers := peers[i := TOMBSTONE];
    }

    /** The slot and the remote of a peer hold the same pre-shared key; all zeros is none. */
    method SetPsk(i: nat, psk: Key)
      requires Configured() && i < |peers| && peers[i].active
      modifies this`peers, noise`remotes
      ensures Configured() && peers == old(peers)[i := old(peers[i]).(psk := psk, hasPsk := psk != NO_KEY)]
      ensures noise.remotes.Keys == old(noise.remotes.Keys) && Continues(old(noise.remotes), arg, noise.remotes, arg)
    {
      hide Noise.Local.Valid;
      var p, r := peers[i].(psk := psk, hasPsk := psk != NO_KEY), peers[i].remote.value;
      ghost var remotes := noise.remotes;
      noise.SetPeerOf(r, noise.remotes[r].peer.(psk := psk));
      LinksEdited(peers, remotes, arg, i, p, r, noise.remotes[r]);
      hide Linked;
      peers := peers[i := p];
    }

    /** A field that the noise layer does not see. */
    method SetField(i: nat, p: Slot)
      requires Configured() && i < |peers| && (|p.allowed| <= MAX_CIDRS || p.allowed == peers[i].allowed)
      requires var q := peers[i]; p.active == q.active && p.remote == q.remote && p.pubkey == q.pubkey && p.psk == q.psk
      modifies this`peers
      ensures Configured() && peers == old(peers)[i := p]
    {
      hide Noise.Local.Valid;
      LinksKept(peers, noise.remotes, arg, i, p);
      hide Linked;
      peers := peers[i := p];
    }

    method EditPeer(i: nat, line: Line) returns (ok: bool)
      requires Configured() && i < |peers| && peers[i].active
      modifies this`peers, noise`remotes
      ensures Configured() && noise.remotes.Keys == old(noise.remotes.Keys)
      ensures Continues(old(noise.remotes), arg, noise.remotes, arg)
      ensures ok <==> Edit(old(peers[i]), line).Some?
      ensures peers == if ok then old(peers)[i := Edit(old(peers[i]), line).value] else old(peers)
    {
      hide Linked, Noise.Local.Valid, Continues;
      Steady();
      ok := true;
      var p := peers[i];
      match line {
        case Remove(yes) =>
          if yes {
            Tombstone(i);
          }
        case PresharedKey(psk) =>
          if psk.None? {
            return false;
          }
          SetPsk(i, psk.value);
        case SetEndpoint(endpoint) =>
          if endpoint.None? {
            return false;
          }
          SetField(i, p.(endpoint := endpoint));
        case Keepalive(seconds) =>
          if seconds < 0 || seconds > 65535 {
            return false;
          }
          SetField(i, p.(keepalive := seconds));
        case ReplaceAllowed(yes) =>
          if yes {
            SetField(i, p.(allowed := []));
          }
        case AllowedIp(cidr) =>
          if |p.allowed| >= MAX_CIDRS || cidr.None? {
            return false;
          }
          SetField(i, p.(allowed := p.allowed + [cidr.value]));
        case _ =>
      }
    }

    /** Finds the peer of a key, or adds it in the first free slot. */
    method SelectPeer(key: Key, alloc: RemoteId, ghost cur: Option<nat>) returns (i: Option<nat>)
      requires Configured() && alloc !in noise.remotes
      modifies this`peers, this`arg, noise`remotes, noise`history
      ensures Configured() && noise.remotes.Keys <= old(noise.remotes.Keys) + {alloc}
      ensures Continues(old(noise.remotes), old(arg), noise.remotes, arg)
      ensures var s := Select(old(State(cur)), key, alloc);
        if s.None? then i == None && State(cur) == old(State(cur)) else i.Some? && State(i) == s.value
    {
      hide FindFrom, FreeFrom, Linked, Noise.Local.Valid, Continues;
      Steady();
      i := FindPeer(key);
      if i.Some? {
        return;
      }
      i := AllocSlot();
      if i.None? {
        return;
      }
      hide Configured;
      Attach(i.value, Added(key, alloc));
    }

    /** A field line, which is about the peer that was named last. */
    method AmendPeer(line: Line, cur: Option<nat>) returns (ok: bool, cur': Option<nat>)
      requires Configured() && (cur.Some? ==> cur.value < |peers| && peers[cur.value].active)
      modifies this`peers, noise`remotes
      ensures Configured() && noise.remotes.Keys == old(noise.remotes.Keys)
      ensures Continues(old(noise.remotes), arg, noise.remotes, arg)
      ensures ok <==> Amend(old(State(cur)), line).Some?
      ensures State(cur') == if ok then Amend(old(State(cur)), line).value else old(State(cur))
    {
      hide Configured, Edit, Continues;
      Steady();
      if cur.None? {
        return true, cur;
      }
      ok := EditPeer(cur.value, line);
      cur' := if ok && line == Remove(true) then None else cur;
    }

    /** Carries out one line. */
    method Execute(line: Line, cur: Option<nat>) returns (ok: bool, cur': Option<nat>)
      requires Configured() && (cur.Some? ==> cur.value < |peers| && peers[cur.value].active)
      requires line.PublicKey? ==> line.alloc !in noise.remotes
      modifies this`peers, this`arg, this`port, noise`remotes, noise`history
      ensures Configured() && Continues(old(noise.remotes), old(arg), noise.remotes, arg)
      ensures ok <==> Step(old(State(cur)), line).Some?
      ensures State(cur') == if ok then Step(old(State(cur)), line).value else old(State(cur))
      ensures noise.remotes.Keys <= old(noise.remotes.Keys) + if line.PublicKey? then {line.alloc} else {}
    {
      hide Configured, Amend, Continues, Select;
      Steady();
      cur' := cur;
      match line {
        case Ignored => ok := true;
        case Unsupported => ok := false;
        case ListenPort(n) =>
          ok := 0 <= n <= 65535;
          if ok {
            port := n;
          }
        case PublicKey(key, alloc) =>
          if key.None? {
            return false, cur;
          }
          var i := SelectPeer(key.value, alloc, cur);
          ok := i.Some?;
          if ok {
            cur' := i;
          }
        case _ =>
          ok, cur' := AmendPeer(line, cur);
      }
    }

    /** Carries out the lines up to the first refusal. */
    method ExecuteAll(lines: seq<Line>) returns (ok: bool)
      requires Configured() && Sound(State(None)) && Allocates(lines, noise.remotes.Keys)
      modifies this`peers, this`arg, this`port, noise`remotes, noise`history
      ensures Configured() && Continues(old(noise.remotes), old(arg), noise.remotes, arg)
      ensures ok == Run(old(State(None)), lines).1
      ensures State(None) == Run(old(State(None)), lines).0.(cur := None)
    {
      var cur: Option<nat> := None;
      ghost var start, remotes, arg' := State(None), noise.remotes, arg;
      hide Configured, Step, Sound, Continues;
      Steady();
      ok := true;
      var n := 0;
      while n < |lines| && ok
        invariant 0 <= n <= |lines| && Configured() && Sound(State(cur)) && Continues(remotes, arg', noise.remotes, arg)
        invariant if ok then Run(start, lines) == Run(State(cur), lines[n..]) else Run(start, lines) == (State(cur), false)
        invariant Allocates(lines[n..], noise.remotes.Keys)
        decreases |lines| - n
      {
        assert lines[n..][0] == lines[n] && lines[n..][1..] == lines[n + 1..];
        ghost var s, before, arg'' := State(cur), noise.remotes, arg;
        SoundCur(s);
        if Step(s, lines[n]).Some? { StepSound(s, lines[n]); }
        ok, cur := Execute(lines[n], cur);
        ContinuesOn(remotes, arg', before, arg'', noise.remotes, arg);
        n := n + 1;
      }
    }

    /** Accepted or not, the routes follow the peers when a command is over. */
    method SetUapi(lines: seq<Line>, memory4: seq<int>, memory6: seq<int>) returns (ok: bool)
      requires Valid() && NoRepeats(memory4) && NoRepeats(memory6) && |memory4| >= MEMORY4 && |memory6| >= MEMORY6
      requires Allocates(lines, noise.remotes.Keys)
      modifies this`peers, this`arg, this`port, this`v4, this`v6, noise`remotes, noise`history
      ensures Valid() && fresh(v4) && fresh(v6)
      ensures Continues(old(noise.remotes), old(arg), noise.remotes, arg)
      ensures Sound(old(State(None))) && ok == Run(old(State(None)), lines).1
      ensures State(None) == Run(old(State(None)), lines).0.(cur := None)
    {
      hide Linked, Counted, Routing, Tracked, Noise.Local.Valid, Continues, Run;
      ok := ExecuteAll(lines);
      RebuildRoutes(memory4, memory6);
    }

    // ---- Data packets -------------------------------------------------------------------

    /** The slot that owns an inner address. */
    method LookupRoute(a: Option<Address>) returns (i: Option<int>)
      requires Routing()
      ensures i == Owner(peers, a)
      ensures i.Some? ==> 0 <= i.value < |peers| && peers[i.value].active
    {
      hide AllowedIps.Trie.Valid, AllowedIps.Longest, Routes;
      if a.None? {
        return None;
      }
      var t := if a.value.family == V4 then v4 else v6;
      i := t.Lookup(a.value.bytes);
      RouteIsLongest(peers, a.value.family, a.value.bytes);
    }

    function CurrentOf(i: nat): Option<Keypairs.Id>
      requires i < |peers|
      reads this`peers, noise`remotes
    {
      var r := peers[i].remote;
      if r.Some? && r.value in noise.remotes then noise.remotes[r.value].current else None
    }

    /** The keypair to send to slot i on. */
    ghost function SendingKeypair(i: nat, now: int): Option<Keypairs.Id>
      requires i < |peers|
      reads this`peers, this`counters, noise, counters.Values
    {
      var k := CurrentOf(i);
      if k.Some? && noise.Usable(k.value, now) && k.value in counters
         && counters[k.value].canSend && |counters[k.value].issued| < ReplayWindow.REJECT_AFTER_MESSAGES then k else None
    }

    /** The datagram that takes `plain` to the peer of slot i, if one can be sent. */
    ghost function Outgoing(i: nat, plain: seq<byte>, now: int): Option<seq<byte>>
      requires i < |peers|
      reads this`peers, this`counters, noise, counters.Values
    {
      var k := SendingKeypair(i, now);
      if peers[i].endpoint.None? || Padded(|plain|) > MAX_PLAIN || k.None? then None
      else
        var session := noise.keypairs[k.value].session;
        Some(Datagram(session.send, session.remoteIndex, |counters[k.value].issued|, plain))
    }

    method DrawNonce(k: Keypairs.Id) returns (ok: bool, nonce: u64)
      requires Counted() && k in counters
      modifies {counters[k]}`canSend, {counters[k]}`nonceSend, {counters[k]}`issued
      ensures Counted()
      ensures ok == old(counters[k].canSend && |counters[k].issued| < ReplayWindow.REJECT_AFTER_MESSAGES)
      ensures ok ==> nonce == old(|counters[k].issued|) && counters[k].issued == old(counters[k].issued) + [nonce as nat]
    {
      hide ReplayWindow.Counters.Counting;
      var rc;
      rc, nonce := counters[k].NonceNext();
      ok := rc == Ok;
    }

    /** The current keypair of slot i, with a reference, if it may be sent on. */
    method TakeKeypair(i: nat, now: int) returns (k: Option<Keypairs.Id>)
      requires Configured() && Tracked() && i < |peers| && peers[i].active
      modifies noise`keypairs
      ensures Configured() && Tracked()
      ensures var c := old(CurrentOf(i)); k == if c.Some? && old(noise.Usable(c.value, now)) then c else None
      ensures k.Some? ==> k.value in counters && k.value in old(noise.keypairs) && Held(k.value) && noise.keypairs[k.value].refs > 0
      ensures k.Some? ==> noise.keypairs[k.value].session == old(noise.keypairs[k.value].session)
      ensures k.Some? ==> Keypairs.Put(noise.View(), k.value) == old(noise.View())
    {
      ghost var w := noise.View();
      assert Keypairs.Inv(w) && SlotLinked(peers[i], i, noise.remotes, arg);
      hide Noise.Local.Valid, Linked, Keypairs.Inv;
      k := noise.KeypairCurrent(peers[i].remote.value, now);
      if k.Some? {
        Keypairs.GetThenPut(w, k.value);
      }
    }

    predicate Held(k: Keypairs.Id)
      reads noise`keypairs
    {
      k in noise.keypairs && noise.keypairs[k].holders > 0
    }

    method GiveBack(k: Keypairs.Id)
      requires Configured() && Tracked() && Held(k)
      modifies noise`keypairs
      ensures Configured() && Tracked()
      ensures old(noise.keypairs[k].refs) > 0 && noise.View() == Keypairs.Put(old(noise.View()), k)
    {
      hide Noise.Local.Valid, Linked, Keypairs.Put;
      noise.KeypairPut(k);
    }

    /** Sends on the current keypair with the next nonce, which is never used again. */
    method Encap(i: nat, plain: seq<byte>, now: int) returns (rc: int, sent: Option<seq<byte>>)
      requires Valid() && i < |peers| && peers[i].active
      modifies noise`keypairs, counters.Values`canSend, counters.Values`nonceSend, counters.Values`issued
      ensures Valid() && sent == old(Outgoing(i, plain, now)) && rc == if sent.Some? then 0 else -1
      ensures sent.Some? ==> noise.View() == old(noise.View())
      ensures sent.Some? ==> var k := old(SendingKeypair(i, now)).value;
        && k in counters && counters[k].issued == old(counters[k].issued) + [old(|counters[k].issued|)]
        && old(|counters[k].issued|) < 0xffff_ffff_ffff_e03e
        && k in old(noise.keypairs) && now <= old(noise.keypairs[k].session.birthdate) + 180_000_000_000
    {
      hide Configured, Routing, Counted, Tracked, Datagram, Keypairs.Put;
      if peers[i].endpoint.None? || Padded(|plain|) > MAX_PLAIN {
        return -1, None;
      }
      var current := TakeKeypair(i, now);
      if current.None? {
        return -1, None;
      }
      var k := current.value;
      var session := noise.keypairs[k].session;
      var ok, nonce := DrawNonce(k);
      GiveBack(k);
      if !ok {
        return -1, None;
      }
      var d := SealPacket(session, nonce, plain);
      return 0, Some(d);
    }

    /** A packet from the host goes to the peer that its destination is routed to. */
    method HandleTun(p: seq<byte>, now: int) returns (rc: int, sent: Option<seq<byte>>)
      requires Valid()
      modifies noise`keypairs, counters.Values`canSend, counters.Values`nonceSend, counters.Values`issued
      ensures Valid() && rc == if sent.Some? then 0 else -1
      ensures var i := Owner(peers, Destination(p));
        sent == if i.Some? && 0 <= i.value < |peers| then old(Outgoing(i.value, p, now)) else None
    {
      hide Configured, Routing, Counted, Tracked, Outgoing, Routed;
      var i := LookupRoute(Destination(p));
      if i.None? {
        return -1, None;
      }
      rc, sent := Encap(i.value, p, now);
    }

    static method SealPacket(session: Keypairs.Session, nonce: u64, plain: seq<byte>) returns (d: seq<byte>)
      ensures d == Datagram(session.send, session.remoteIndex, nonce, plain)
    {
      hide Aead.Seal, Header, PadPlain;
      var m := new Aead.Mbuf(PadPlain(plain));
      Aead.EncryptMbuf(m, nonce, session.send);
      d := Header(session.remoteIndex, nonce) + m.Contents();
    }

    /** A keypair in a slot has the index that the datagram names. */
    predicate Hears(k: Keypairs.Id, d: seq<byte>)
      reads noise`remotes, noise`keypairs, noise`table
    {
      |d| >= 32 && Keypairs.Slotted(noise.View(), k) && noise.keypairs[k].localIndex == ReadIndex(d)
    }

    /** What the datagram opens to on keypair k, which must be neither worn out nor too old. */
    function Plain(k: Keypairs.Id, d: seq<byte>, now: int): Option<seq<byte>>
      requires |d| >= 32 && k in noise.keypairs && k in counters
      reads this`counters, noise`keypairs, counters.Values`nonceRecv
    {
      Unsealed(noise.keypairs[k].session, counters[k].nonceRecv, d, now)
    }

    /** What a datagram delivers to the host when keypair k opens it. */
    function Delivery(k: Keypairs.Id, d: seq<byte>, now: int): Option<seq<byte>>
      requires |d| >= 32 && k in noise.keypairs && k in counters && noise.keypairs[k].remote in arg
      reads this`peers, this`arg, this`counters, noise`keypairs, counters.Values`nonceRecv
    {
      var m := Plain(k, d, now);
      if m.None? then None else Passed(peers, arg[noise.keypairs[k].remote], m.value)
    }

    /** The keypair that a datagram is for, with a reference. */
    method FetchKeypair(d: seq<byte>) returns (k: Option<Keypairs.Id>)
      requires Configured() && Tracked() && |d| >= 32
      modifies noise`keypairs
      ensures Configured() && Tracked()
      ensures forall j :: k == Some(j) <==> old(Hears(j, d))
      ensures k.None? ==> noise.View() == old(noise.View())
      ensures k.Some? ==> k.value in old(noise.keypairs) && k.value in counters && Held(k.value)
      ensures k.Some? ==> SameKeypair(old(noise.keypairs), noise.keypairs, k.value)
      ensures k.Some? ==> var r := noise.keypairs[k.value].remote; r in noise.remotes && r in arg && arg[r] < |peers|
    {
      hide Noise.Local.Valid, Keypairs.Inv;
      k := noise.KeypairLookup(ReadIndex(d));
      assert k.Some? ==> old(Hears(k.value, d));
    }

    method OpenPacket(k: Keypairs.Id, d: seq<byte>, now: int) returns (m: Option<seq<byte>>)
      requires |d| >= 32 && k in noise.keypairs && k in counters
      ensures m == Plain(k, d, now)
    {
      hide Aead.Open;
      var session := noise.keypairs[k].session;
      if counters[k].nonceRecv >= ReplayWindow.REJECT_AFTER_MESSAGES
         || Noise.TimerExpired(now, session.birthdate, Noise.REJECT_AFTER_TIME, 0) {
        return None;
      }
      var buffer := new Aead.Mbuf(d[16..]);
      var rc := Aead.DecryptMbuf(buffer, ReadNonce(d), session.recv);
      if rc != Ok {
        return None;
      }
      return Some(buffer.Contents());
    }

    /** Roaming: the peer is where its last authentic packet came from. */
    method Roam(slot: nat, from: Endpoint)
      requires Configured() && Routing() && slot < |peers|
      modifies this`peers
      ensures Configured() && Routing()
      ensures peers == old(peers)[slot := old(peers[slot]).(endpoint := Some(from))]
    {
      hide Configured, AllowedIps.Trie.Valid, Routes;
      var p := peers[slot].(endpoint := Some(from));
      RoutesKept(peers, peers[slot := p], V4);
      RoutesKept(peers, peers[slot := p], V6);
      SetField(slot, p);
    }

    /** Hands a packet on if it may come from the peer of this slot. */
    method Deliver(slot: nat, m: seq<byte>) returns (rc: int, delivered: Option<seq<byte>>)
      requires Routing()
      ensures delivered == Passed(peers, slot, m)
      ensures rc == if m != [] && InnerLength(m).None? then -1 else 0
    {
      hide Routing, Routed;
      if m == [] {
        return 0, None;
      }
      var n := InnerLength(m);
      if n.None? {
        return -1, None;
      }
      var owner := LookupRoute(Source(m[..n.value]));
      if owner != Some(slot) {
        return 0, None;
      }
      return 0, Some(m[..n.value]);
    }

    /** The keypair is in use at the other end. */
    method Receive(k: Keypairs.Id)
      requires Configured() && Tracked() && Held(k) && noise.keypairs[k].remote in noise.remotes
      modifies noise`remotes, noise`keypairs, noise`table
      ensures Configured() && Tracked() && Held(k)
      ensures noise.remotes == Confirmed(old(noise.remotes), old(noise.keypairs[k].remote), k)
    {
      ghost var remotes := noise.remotes;
      hide Noise.Local.Valid, Linked, Keypairs.Inv, Keypairs.Promote;
      var _ := noise.ReceivedWith(k);
      LinksByPeer(peers, remotes, noise.remotes, arg);
    }

    method AcceptPlain(k: Keypairs.Id, slot: nat, m: seq<byte>, from: Endpoint) returns (rc: int,
                       delivered: Option<seq<byte>>)
      requires Configured() && Routing() && Tracked() && Held(k) && noise.keypairs[k].remote in noise.remotes
      requires slot < |peers|
      modifies this`peers, noise`remotes, noise`keypairs, noise`table
      ensures Configured() && Routing() && Tracked()
      ensures peers == old(peers)[slot := old(peers[slot]).(endpoint := Some(from))]
      ensures delivered == Passed(old(peers), slot, m)
      ensures noise.remotes == Confirmed(old(noise.remotes), old(noise.keypairs[k].remote), k)
    {
      hide Configured, Routing, Tracked, Passed, Keypairs.Put, Confirmed;
      Receive(k);
      Roam(slot, from);
      OwnersKept(old(peers), slot, from, m);
      rc, delivered := Deliver(slot, m);
      GiveBack(k);
    }

    /** A data packet is delivered when the keypair it names opens it and the routes give its source
        address to the slot of that keypair. */
    method HandleData(d: seq<byte>, from: Endpoint, now: int) returns (rc: int, delivered: Option<seq<byte>>)
      requires Valid()
      modifies this`peers, noise`remotes, noise`keypairs, noise`table
      ensures Valid()
      ensures forall k :: old(Hears(k, d) && Opens(k, d, now)) ==>
        && delivered == old(Delivery(k, d, now)) && peers == old(Moved(k, from))
        && old(noise.keypairs)[k].remote in old(noise.remotes)
        && noise.remotes == Confirmed(old(noise.remotes), old(noise.keypairs)[k].remote, k)
      ensures (forall k :: !old(Hears(k, d) && Opens(k, d, now))) ==> rc == -1 && delivered == None && peers == old(peers)
    {
      hide Configured, Routing, Counted, Tracked, Unsealed, Passed, Confirmed, Keypairs.Slotted, Keypairs.Put;
      hide ReadIndex;
      if |d| < 32 {
        return -1, None;
      }
      var found := FetchKeypair(d);
      if found.None? {
        return -1, None;
      }
      var k := found.value;
      var m := OpenPacket(k, d, now);
      if m.None? {
        GiveBack(k);
        return -1, None;
      }
      rc, delivered := AcceptPlain(k, arg[noise.keypairs[k].remote], m.value, from);
    }

    predicate Opens(k: Keypairs.Id, d: seq<byte>, now: int)
      reads this`arg, this`peers, this`counters, noise`keypairs, counters.Values`nonceRecv
    {
      |d| >= 32 && k in counters && SlotOf(k).Some? && SlotOf(k).value < |peers| && Plain(k, d, now).Some?
    }

    /** The slot whose peer a packet on keypair k counts as coming from. */
    function SlotOf(k: Keypairs.Id): Option<nat>
      reads this`arg, noise`keypairs
    {
      if k in noise.keypairs && noise.keypairs[k].remote in arg then Some(arg[noise.keypairs[k].remote]) else None
    }

    /** The routes give the source address of the packet to the peer that keypair k counts for. */
    predicate Admits(k: Keypairs.Id, p: seq<byte>)
      reads this`arg, this`peers, noise`keypairs
    {
      Owner(peers, Source(p)) == SlotOf(k)
    }

    /** The peers once the slot of keypair k has been heard from this endpoint. */
    function Moved(k: Keypairs.Id, from: Endpoint): seq<Slot>
      requires k in noise.keypairs && noise.keypairs[k].remote in arg && arg[noise.keypairs[k].remote] < |peers|
      reads this`arg, this`peers, noise`keypairs
    {
      var slot := arg[noise.keypairs[k].remote];
      peers[slot := peers[slot].(endpoint := Some(from))]
    }
  }

  function Unsealed(session: Keypairs.Session, nonceRecv: u64, d: seq<byte>, now: int): Option<seq<byte>>
    requires |d| >= 32
  {
    if nonceRecv >= ReplayWindow.REJECT_AFTER_MESSAGES
       || Noise.TimerExpired(now, session.birthdate, Noise.REJECT_AFTER_TIME, 0) then None
    else Opened(session.recv, d)
  }

  /** The same keypair but for the references to it. */
  predicate SameKeypair(before: map<Keypairs.Id, Keypairs.Keypair>, after: map<Keypairs.Id, Keypairs.Keypair>,
                        k: Keypairs.Id) {
    && k in before && k in after
    && after[k] == before[k].(refs := after[k].refs, holders := after[k].holders)
  }

  /** Where a peer is does not matter for what it may send. */
  lemma OwnersKept(peers: seq<Slot>, slot: nat, from: Endpoint, m: seq<byte>)
    requires slot < |peers|
    ensures Passed(peers[slot := peers[slot].(endpoint := Some(from))], slot, m) == Passed(peers, slot, m)
  {
    RoutesKept(peers, peers[slot := peers[slot].(endpoint := Some(from))], V4);
    RoutesKept(peers, peers[slot := peers[slot].(endpoint := Some(from))], V6);
  }

  /** The packet in an opened payload, if the routes give its source to this slot. */
  function Passed(peers: seq<Slot>, slot: int, m: seq<byte>): Option<seq<byte>> {
    var n := InnerLength(m);
    if n.None? then None
    else if Owner(peers, Source(m[..n.value])) == Some(slot) then Some(m[..n.value])
    else None
  }

  /** A remote once a packet came in on keypair k: data may be sent on k from now on. */
  function Confirmed(remotes: Remotes, r: RemoteId, k: Keypairs.Id): Remotes
    requires r in remotes
  {
    var l := remotes[r];
    if l.next != Some(k) then remotes else remotes[r := l.(next := None, current := l.next, previous := l.current)]
  }

  // ---- From one session to the other ----------------------------------------------------

  /** What the receiver makes of a datagram that carries a whole packet under the key it expects. */
  lemma Crosses(s: Keypairs.Session, rIdx: u32, nonce: u64, p: seq<byte>, peers: seq<Slot>, slot: int, nonceRecv: u64,
                now: int)
    requires WholePacket(p) && nonceRecv < ReplayWindow.REJECT_AFTER_MESSAGES
    requires !Noise.TimerExpired(now, s.birthdate, Noise.REJECT_AFTER_TIME, 0)
    ensures var d := Datagram(s.recv, rIdx, nonce, p);
      && |d| >= 32 && ReadIndex(d) == rIdx && Unsealed(s, nonceRecv, d, now) == Some(PadPlain(p))
      && Passed(peers, slot, PadPlain(p)) == if Owner(peers, Source(p)) == Some(slot) then Some(p) else None
  {
    hide Datagram, Opened, ReadIndex, ReadNonce, InnerLength, Routed;
    HeaderReads(s.recv, rIdx, nonce, p);
    PaddingIsCut(p, Zeros(Padded(|p|) - |p|));
    assert PadPlain(p)[..|p|] == p;
  }

  /** The two ends of one session. */
  ghost predicate Paired(a: Session, ka: Keypairs.Id, b: Session, kb: Keypairs.Id)
    reads a.noise, b.noise
  {
    && ka in a.noise.keypairs && kb in b.noise.keypairs
    && (Noise.Mirrored(a.noise.keypairs[ka], b.noise.keypairs[kb]) || Noise.Mirrored(b.noise.keypairs[kb], a.noise.keypairs[ka]))
  }

  /** Keypair k is in use and can still receive. */
  ghost predicate Alive(s: Session, k: Keypairs.Id, now: int)
    reads s, s.noise, s.counters.Values
  {
    && Keypairs.Slotted(s.noise.View(), k) && k in s.counters
    && s.counters[k].nonceRecv < ReplayWindow.REJECT_AFTER_MESSAGES
    && !Noise.TimerExpired(now, s.noise.keypairs[k].session.birthdate, Noise.REJECT_AFTER_TIME, 0)
  }

  /** The packet is routed to slot i, whose current keypair is k. */
  ghost predicate SendsOn(s: Session, i: nat, k: Keypairs.Id, p: seq<byte>, now: int)
    reads s, s.noise, s.counters.Values
  {
    && Owner(s.peers, Destination(p)) == Some(i) && i < |s.peers| && s.peers[i].endpoint.Some?
    && s.SendingKeypair(i, now) == Some(k)
  }

  ghost predicate Apart(a: Session, b: Session)
    reads a, b
  {
    a != b && a.noise != b.noise && a.counters.Values !! b.counters.Values
  }

  lemma Arrives(s: Session, k: Keypairs.Id, d: seq<byte>, nonce: u64, p: seq<byte>, now: int)
    requires s.Configured() && Alive(s, k, now) && WholePacket(p)
    requires var kp := s.noise.keypairs[k]; d == Datagram(kp.session.recv, kp.localIndex, nonce, p)
    ensures s.Hears(k, d) && s.Opens(k, d, now) && s.SlotOf(k).Some?
    ensures s.Delivery(k, d, now) == if s.Admits(k, p) then Some(p) else None
  {
    hide Noise.Local.Valid, Datagram, Unsealed, Passed, ReadIndex, Routed;
    var kp := s.noise.keypairs[k];
    Crosses(kp.session, kp.localIndex, nonce, p, s.peers, s.arg[kp.remote], s.counters[k].nonceRecv, now);
  }

  /** A whole packet sent through one session reaches the other side byte for byte, exactly when the
      routes there give its source address to the peer it was received from. */
  method Carry(a: Session, b: Session, i: nat, ka: Keypairs.Id, kb: Keypairs.Id, p: seq<byte>, from: Endpoint,
               t1: int, t2: int)
    returns (delivered: Option<seq<byte>>)
    requires a.Valid() && b.Valid() && Apart(a, b)
    requires WholePacket(p) && |p| <= 2000
    requires SendsOn(a, i, ka, p, t1) && Alive(b, kb, t2) && Paired(a, ka, b, kb)
    modifies a.noise`keypairs, a.counters.Values`canSend, a.counters.Values`nonceSend, a.counters.Values`issued
    modifies b`peers, b.noise`remotes, b.noise`keypairs, b.noise`table
    ensures a.Valid() && b.Valid() && old(b.SlotOf(kb)).Some?
    ensures delivered == if old(b.Admits(kb, p)) then Some(p) else None
  {
    hide Session.Configured, Session.Routing, Session.Counted, Session.Tracked, Keypairs.Slotted, Datagram, Routed,
      Session.Opens, Session.Delivery, Session.Hears;
    ghost var n := |a.counters[ka].issued|;
    var rc, sent := a.HandleTun(p, t1);
    Arrives(b, kb, sent.value, n, p, t2);
    rc, delivered := b.HandleData(sent.value, from, t2);
  }

  /** The datagram was sealed under this key, around a payload that starts with the packet. */
  ghost predicate Carries(key: Key, d: seq<byte>, p: seq<byte>)
    requires |d| >= 32
  {
    exists m :: p <= m && d[16..] == Aead.Seal(key, Aead.PacketNonce(ReadNonce(d)), [], m)
  }

  /** No active peer has a better claim to the source address of the packet than that of the slot. */
  ghost predicate Claimed(peers: seq<Slot>, p: seq<byte>, slot: int) {
    Source(p).Some? && exists c :: Best(peers, Source(p).value.family, Source(p).value.bytes, slot, c)
  }

  /** Whatever is delivered comes from the holder of the keypair's key, and from an address of its own. */
  lemma OnlyFromItsPeer(session: Keypairs.Session, nonceRecv: u64, d: seq<byte>, now: int, peers: seq<Slot>, slot: int)
    requires |d| >= 32 && Unsealed(session, nonceRecv, d, now).Some?
    requires Passed(peers, slot, Unsealed(session, nonceRecv, d, now).value).Some?
    ensures var p := Passed(peers, slot, Unsealed(session, nonceRecv, d, now).value).value;
      Carries(session.recv, d, p) && Claimed(peers, p, slot)
    ensures now <= session.birthdate + 180_000_000_000 && nonceRecv < 0xffff_ffff_ffff_e03e
  {
    hide Aead.Seal, Aead.Open, ReadNonce, Routed, Best, Aead.PacketNonce;
    var m := Unsealed(session, nonceRecv, d, now).value;
    var p := Passed(peers, slot, m).value;
    Aead.OpenIffSealed(session.recv, Aead.PacketNonce(ReadNonce(d)), [], d[16..], m);
    RouteIsLongest(peers, Source(p).value.family, Source(p).value.bytes);
  }

  // ---- A slot that is used again --------------------------------------------------------

  lemma StillHeard(s: World, s': World, arg: map<RemoteId, nat>, arg': map<RemoteId, nat>, k: Keypairs.Id)
    requires Keypairs.Inv(s) && Continues(s.remotes, arg, s'.remotes, arg') && s'.keypairs == s.keypairs
    requires k in s.keypairs
    ensures Keypairs.Slotted(s', k) == Keypairs.Slotted(s, k)
    ensures s.keypairs[k].remote in s.remotes && s.keypairs[k].remote in arg && s.keypairs[k].remote in arg'
    ensures arg'[s.keypairs[k].remote] == arg[s.keypairs[k].remote]
  {
    assert Keypairs.KeypairOk(s, k);
  }

  /** Removing a peer and adding another: the new peer takes the slot, while the keypairs of the removed
      peer stay in the index table, and what they open counts as sent by the new one. */
  method Replace(s: Session, i: nat, key: Key, spare: RemoteId, key': Key, alloc: RemoteId, memory4: seq<int>,
                 memory6: seq<int>)
    requires s.Valid() && NoRepeats(memory4) && NoRepeats(memory6) && |memory4| >= MEMORY4 && |memory6| >= MEMORY6
    requires i < |s.peers| && FindFrom(s.peers, key, 0) == Some(i) && FindFrom(s.peers, key', 0) == None
    requires (forall j :: 0 <= j < i ==> s.peers[j].active)
    requires spare != alloc && spare !in s.noise.remotes && alloc !in s.noise.remotes
    modifies s`peers, s`arg, s`port, s`v4, s`v6, s.noise`remotes, s.noise`history
    ensures s.Valid() && s.peers == old(s.peers)[i := Added(key', alloc)]
    ensures forall k :: k in s.noise.keypairs ==> s.SlotOf(k) == old(s.SlotOf(k)) && s.SlotOf(k).Some?
    ensures forall k, d :: k in s.noise.keypairs ==> s.Hears(k, d) == old(s.Hears(k, d))
  {
    hide Session.Configured, Session.Routing, Session.Counted, Session.Tracked, Run, Continues, Keypairs.Slotted;
    hide ReadIndex, FindFrom;
    ghost var w, arg := s.noise.View(), s.arg;
    s.Known();
    var lines := [PublicKey(Some(key), spare), Remove(true), PublicKey(Some(key'), alloc)];
    SlotIsReused(s.peers, s.port, i, key, spare, key', alloc);
    var ok := s.SetUapi(lines, memory4, memory6);
    forall k | k in s.noise.keypairs
      ensures Keypairs.Slotted(s.noise.View(), k) == Keypairs.Slotted(w, k) && s.SlotOf(k) == old(s.SlotOf(k))
      ensures s.SlotOf(k).Some?
    {
      StillHeard(w, s.noise.View(), arg, s.arg, k);
    }
  }

  // ---- A report that is sent to another session -----------------------------------------

  /** Every slot has an address of its own. */
  ghost predicate Spare(alloc: nat -> RemoteId, n: nat, used: set<RemoteId>) {
    && (forall i :: 0 <= i < n ==> alloc(i) !in used)
    && (forall i, j :: 0 <= i < j < n ==> alloc(i) != alloc(j))
  }

  lemma {:induction false} DumpSlots(peers: seq<Slot>, alloc: nat -> RemoteId)
    ensures forall l <- Dump(peers, alloc) :: l.PublicKey? ==> exists i :: 0 <= i < |peers| && l.alloc == alloc(i)
    decreases |peers|
  {
    if peers != [] {
      var front := peers[..|peers| - 1];
      DumpSlots(front, alloc);
      hide Dump;
      forall l | l in Dump(peers, alloc) && l.PublicKey?
        ensures exists i :: 0 <= i < |peers| && l.alloc == alloc(i)
      {
        LastLines(peers, alloc);
        if l in Dump(front, alloc) {
          var i :| 0 <= i < |front| && l.alloc == alloc(i);
        } else {
          assert l.alloc == alloc(|peers| - 1);
        }
      }
    }
  }

  lemma LastLines(peers: seq<Slot>, alloc: nat -> RemoteId)
    requires peers != []
    ensures var last := LastDump(peers, alloc);
      && Dump(peers, alloc) == Dump(peers[..|peers| - 1], alloc) + last
      && forall n :: 0 <= n < |last| && last[n].PublicKey? ==> n == 0 && last[n].alloc == alloc(|peers| - 1)
  {
    OneKeyLine(peers[|peers| - 1], alloc(|peers| - 1));
    hide PeerLines;
  }

  lemma OneKeyLine(p: Slot, alloc: RemoteId)
    ensures forall n :: 0 <= n < |PeerLines(p, alloc)| && PeerLines(p, alloc)[n].PublicKey? ==>
      n == 0 && PeerLines(p, alloc)[n].alloc == alloc
  {
    var head, blocks := Heading(p, alloc), BlockLines(p.allowed);
    assert |head| == 4 && head[0].alloc == alloc;
    assert forall n :: 0 < n < 4 ==> !head[n].PublicKey?;
    assert forall n :: 0 <= n < |blocks| ==> blocks[n].AllowedIp?;
    hide PeerLines, Heading, BlockLines;
  }

  lemma {:induction false} DumpAllocates(peers: seq<Slot>, alloc: nat -> RemoteId, used: set<RemoteId>)
    requires Spare(alloc, |peers|, used)
    ensures Allocates(Dump(peers, alloc), used)
    decreases |peers|
  {
    if peers != [] {
      var front := peers[..|peers| - 1];
      DumpAllocates(front, alloc, used);
      DumpSlots(front, alloc);
      LastLines(peers, alloc);
      hide Dump, PeerLines;
    }
  }

  /** The peer lines of a report, carried out by an empty session, set up the same peers. */
  method Transplant(s: Session, peers: seq<Slot>, alloc: nat -> RemoteId, memory4: seq<int>, memory6: seq<int>)
    requires s.Valid() && s.peers == [] && Reportable(peers) && Spare(alloc, |peers|, s.noise.remotes.Keys)
    requires NoRepeats(memory4) && NoRepeats(memory6) && |memory4| >= MEMORY4 && |memory6| >= MEMORY6
    modifies s`peers, s`arg, s`port, s`v4, s`v6, s.noise`remotes, s.noise`history
    ensures s.Valid() && s.peers == Restore(peers, alloc)
  {
    hide Session.Valid, Run, Dump, Spare, Continues;
    DumpAllocates(peers, alloc, s.noise.remotes.Keys);
    DumpRestores(peers, s.port, alloc);
    var ok := s.SetUapi(Dump(peers, alloc), memory4, memory6);
    assert ok;
  }
}
