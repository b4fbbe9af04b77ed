/** The keypair slots, the index table and the keypair reference counts of one interface, and the
    steps in which they change. Structures are named by the address they are allocated at. */
module Keypairs {
  import opened Wrappers
  import opened Words
  import opened NoiseCrypto
  import opened Handshake

  type Id = int

  datatype Phase = Dead | Initiator | Responder

  /** What a remote holds for the handshake computations. */
  datatype Peer = Peer(public: Key, psk: Key, ss: Key, hs: HandshakeState, remoteIndex: u32,
    lastSent: int, lastInitRecv: int, stamp: Stamp, enabled: bool)

  datatype Remote = Remote(peer: Peer, phase: Phase, localIndex: u32,
    next: Option<Id>, current: Option<Id>, previous: Option<Id>)

  /** What a keypair holds for the data packets. */
  datatype Session = Session(remoteIndex: u32, canSend: bool, birthdate: int, send: Key, recv: Key)

  /** `holders` counts the references handed out to callers; `received` says that the keypair left
      the next slot because a packet came in on it. Both are history, which no step looks at. */
  datatype Keypair = Keypair(session: Session, remote: Id, localIndex: u32, isInitiator: bool,
    refs: nat, holders: nat, received: bool)

  datatype Entry = HandshakeOf(remote: Id) | KeypairOf(keypair: Id)

  datatype World = World(remotes: map<Id, Remote>, keypairs: map<Id, Keypair>, table: set<Entry>)

  datatype Slot = Next | Current | Previous

  function Occupant(l: Remote, slot: Slot): Option<Id> {
    match slot
    case Next => l.next
    case Current => l.current
    case Previous => l.previous
  }

  function SetSlot(l: Remote, slot: Slot, o: Option<Id>): Remote {
    match slot
    case Next => l.(next := o)
    case Current => l.(current := o)
    case Previous => l.(previous := o)
  }

  // ---- The invariant --------------------------------------------------------------------

  predicate InSlot(l: Remote, k: Id) {
    l.next == Some(k) || l.current == Some(k) || l.previous == Some(k)
  }

  predicate SlotsDistinct(l: Remote) {
    && (l.next.Some? ==> l.next != l.current && l.next != l.previous)
    && (l.current.Some? ==> l.current != l.previous)
  }

  predicate Slotted(w: World, k: Id) {
    && k in w.keypairs && w.keypairs[k].remote in w.remotes
    && InSlot(w.remotes[w.keypairs[k].remote], k)
  }

  /** No keypair is in two slots of a remote, every slot holds a keypair of that remote, data is
      never sent on a keypair of ours as responder before the initiator has used it, and the table
      holds the handshake exactly while it is not dead. */
  ghost predicate RemoteOk(w: World, r: Id) {
    && (r in w.remotes ==>
          && SlotsDistinct(w.remotes[r])
          && (forall k :: InSlot(w.remotes[r], k) ==> k in w.keypairs && w.keypairs[k].remote == r)
          && (forall k :: w.remotes[r].current == Some(k) && k in w.keypairs ==> Confirmed(w.keypairs[k])))
    && (HandshakeOf(r) in w.table <==> r in w.remotes && w.remotes[r].phase != Dead)
  }

  predicate Confirmed(k: Keypair) { k.isInitiator || k.received }

  /** A keypair exists as long as a slot or a holder refers to it and counts exactly those, and the
      table holds it exactly while it is in a slot. */
  ghost predicate KeypairOk(w: World, k: Id) {
    && (k in w.keypairs ==>
          && w.keypairs[k].remote in w.remotes
          && w.keypairs[k].refs == (if Slotted(w, k) then 1 else 0) + w.keypairs[k].holders > 0)
    && (KeypairOf(k) in w.table <==> Slotted(w, k))
  }

  function IndexOf(w: World, e: Entry): u32 {
    match e
    case HandshakeOf(r) => if r in w.remotes then w.remotes[r].localIndex else 0
    case KeypairOf(k) => if k in w.keypairs then w.keypairs[k].localIndex else 0
  }

  ghost predicate Unique(w: World) {
    forall d, e :: d in w.table && e in w.table && IndexOf(w, d) == IndexOf(w, e) ==> d == e
  }

  ghost predicate Inv(w: World) {
    && (forall r :: RemoteOk(w, r))
    && (forall k :: KeypairOk(w, k))
    && Unique(w)
  }

  // ---- Steps that touch one remote and some keypairs of it ------------------------------

  ghost predicate Untouched(w: World, w': World, r: Id, ks: set<Id>) {
    && (forall s :: s != r ==> (s in w'.remotes <==> s in w.remotes))
    && (forall s :: s != r && s in w.remotes && s in w'.remotes ==> w'.remotes[s] == w.remotes[s])
    && (forall j :: j !in ks ==> (j in w'.keypairs <==> j in w.keypairs))
    && (forall j :: j !in ks && j in w.keypairs && j in w'.keypairs ==> w'.keypairs[j] == w.keypairs[j])
    && (forall e :: e != HandshakeOf(r) && (e.KeypairOf? ==> e.keypair !in ks) ==> (e in w'.table <==> e in w.table))
  }

  /** The slots of r change for the keypairs in ks only, which all belong to r. */
  ghost predicate Within(w: World, w': World, r: Id, ks: set<Id>) {
    && (r in w.remotes ==> r in w'.remotes)
    && (forall j :: j !in ks && r in w'.remotes && InSlot(w'.remotes[r], j) ==> r in w.remotes && InSlot(w.remotes[r], j))
    && (forall j :: j !in ks && r in w.remotes && InSlot(w.remotes[r], j) ==> r in w'.remotes && InSlot(w'.remotes[r], j))
    && (forall k <- ks :: (k in w.keypairs ==> w.keypairs[k].remote == r) && (k in w'.keypairs ==> w'.keypairs[k].remote == r))
  }

  lemma OtherRemote(w: World, w': World, r: Id, ks: set<Id>, s: Id)
    requires RemoteOk(w, s) && Untouched(w, w', r, ks) && Within(w, w', r, ks) && s != r
    ensures RemoteOk(w', s)
  {
  }

  lemma OtherKeypair(w: World, w': World, r: Id, ks: set<Id>, j: Id)
    requires KeypairOk(w, j) && Untouched(w, w', r, ks) && Within(w, w', r, ks) && j !in ks
    ensures KeypairOk(w', j)
  {
  }

  /** The invariant is local: what a step has to establish is about the remote and keypairs it touches. */
  lemma StepKeeps(w: World, w': World, r: Id, ks: set<Id>)
    requires Inv(w) && Untouched(w, w', r, ks) && Within(w, w', r, ks)
    requires RemoteOk(w', r) && (forall k <- ks :: KeypairOk(w', k)) && Unique(w')
    ensures Inv(w')
  {
    hide RemoteOk, KeypairOk, Unique, Untouched, Within;
    forall s ensures RemoteOk(w', s) {
      if s != r {
        OtherRemote(w, w', r, ks, s);
      }
    }
    forall j ensures KeypairOk(w', j) {
      if j !in ks {
        OtherKeypair(w, w', r, ks, j);
      }
    }
  }

  lemma UniqueInPart(w: World, w': World)
    requires Unique(w) && w'.table <= w.table
    requires forall e :: e in w'.table ==> IndexOf(w', e) == IndexOf(w, e)
    ensures Unique(w')
  {
    hide IndexOf;
  }

  lemma UniqueWith(w: World, w': World, old': Entry, new': Entry)
    requires Unique(w) && w'.table <= w.table - {old'} + {new'}
    requires forall e :: e in w'.table && e != new' ==> IndexOf(w', e) == IndexOf(w, e)
    requires forall e :: e in w.table && e != old' ==> IndexOf(w, e) != IndexOf(w', new')
    ensures Unique(w')
  {
    hide IndexOf;
  }

  // ---- Slots ----------------------------------------------------------------------------

  /** One reference less; the last one frees the keypair. */
  function Unref(keypairs: map<Id, Keypair>, k: Id): map<Id, Keypair>
    requires k in keypairs && keypairs[k].refs > 0
  {
    if keypairs[k].refs == 1 then keypairs - {k}
    else keypairs[k := keypairs[k].(refs := keypairs[k].refs - 1)]
  }

  lemma SlotOk(w: World, r: Id, slot: Slot)
    requires Inv(w) && r in w.remotes && Occupant(w.remotes[r], slot).Some?
    ensures var k := Occupant(w.remotes[r], slot).value;
      k in w.keypairs && w.keypairs[k].remote == r && w.keypairs[k].refs == 1 + w.keypairs[k].holders && Slotted(w, k)
  {
    assert RemoteOk(w, r);
    var k := Occupant(w.remotes[r], slot).value;
    assert InSlot(w.remotes[r], k);
    assert KeypairOk(w, k);
  }

  /** A slot is emptied: its keypair leaves the table and loses the slot's reference. */
  function Drop(w: World, r: Id, slot: Slot): World
    requires Inv(w) && r in w.remotes
  {
    match Occupant(w.remotes[r], slot)
    case None => w
    case Some(k) =>
      SlotOk(w, r, slot);
      World(w.remotes[r := SetSlot(w.remotes[r], slot, None)], Unref(w.keypairs, k), w.table - {KeypairOf(k)})
  }

  lemma DropKeeps(w: World, r: Id, slot: Slot)
    requires Inv(w) && r in w.remotes
    ensures Inv(Drop(w, r, slot))
    ensures Drop(w, r, slot).remotes == w.remotes[r := SetSlot(w.remotes[r], slot, None)]
    ensures var w' := Drop(w, r, slot);
      forall k :: k in w.keypairs && Some(k) != Occupant(w.remotes[r], slot) ==> k in w'.keypairs && w'.keypairs[k] == w.keypairs[k]
  {
    var l, w' := w.remotes[r], Drop(w, r, slot);
    if Occupant(l, slot).Some? {
      var k := Occupant(l, slot).value;
      SlotOk(w, r, slot);
      assert RemoteOk(w, r) && KeypairOk(w, k);
      assert Untouched(w, w', r, {k}) && Within(w, w', r, {k});
      UniqueInPart(w, w');
      StepKeeps(w, w', r, {k});
    }
  }

  /** The same keypairs in other slots. */
  function Arrange(w: World, r: Id, next: Option<Id>, current: Option<Id>, previous: Option<Id>): World
    requires r in w.remotes
  {
    w.(remotes := w.remotes[r := w.remotes[r].(next := next, current := current, previous := previous)])
  }

  lemma ArrangeKeeps(w: World, r: Id, next: Option<Id>, current: Option<Id>, previous: Option<Id>)
    requires Inv(w) && r in w.remotes
    requires var l' := w.remotes[r].(next := next, current := current, previous := previous);
      SlotsDistinct(l') && forall j :: InSlot(l', j) <==> InSlot(w.remotes[r], j)
    requires current.Some? ==> current.value in w.keypairs && Confirmed(w.keypairs[current.value])
    ensures Inv(Arrange(w, r, next, current, previous))
  {
    var w' := Arrange(w, r, next, current, previous);
    assert RemoteOk(w, r);
    UniqueInPart(w, w');
    StepKeeps(w, w', r, {});
  }

  const NO_HANDSHAKE := HandshakeState(NO_KEY, NO_KEY, NO_KEY)

  /** A remote after its handshake led to a session. */
  function Done(l: Remote): Remote { l.(phase := Dead, peer := l.peer.(hs := NO_HANDSHAKE)) }

  /** A keypair as it goes into a slot: the maker's reference becomes the slot's. */
  function Indexed(k: Keypair, l: Remote): Keypair
    requires k.holders > 0
  {
    k.(localIndex := l.localIndex, session := k.session.(remoteIndex := l.peer.remoteIndex), holders := k.holders - 1)
  }

  /** A keypair that a holder made takes an empty slot, and the index of the handshake it came from. */
  function Insert(w: World, r: Id, k: Id, slot: Slot): World
    requires r in w.remotes && k in w.keypairs && w.keypairs[k].holders > 0
  {
    var l := w.remotes[r];
    World(w.remotes[r := Done(SetSlot(l, slot, Some(k)))],
          w.keypairs[k := Indexed(w.keypairs[k], l)],
          w.table - {HandshakeOf(r)} + {KeypairOf(k)})
  }

  lemma InsertKeeps(w: World, r: Id, k: Id, slot: Slot)
    requires Inv(w) && r in w.remotes && w.remotes[r].phase != Dead && Occupant(w.remotes[r], slot) == None
    requires k in w.keypairs && w.keypairs[k].holders > 0 && w.keypairs[k].remote == r && !Slotted(w, k)
    requires slot == Current ==> Confirmed(w.keypairs[k])
    ensures Inv(Insert(w, r, k, slot))
  {
    var w' := Insert(w, r, k, slot);
    assert RemoteOk(w, r) && KeypairOk(w, k);
    assert InSlot(w'.remotes[r], k);
    assert Untouched(w, w', r, {k}) && Within(w, w', r, {k});
    UniqueWith(w, w', HandshakeOf(r), KeypairOf(k));
    StepKeeps(w, w', r, {k});
  }

  function Allocated(session: Session, r: Id, isInitiator: bool): Keypair {
    Keypair(session, r, 0, isInitiator, 1, 1, false)
  }

  /** Allocation: one reference, held by the caller, and in no slot yet. */
  function Create(w: World, r: Id, k: Id, isInitiator: bool, session: Session): World {
    w.(keypairs := w.keypairs[k := Allocated(session, r, isInitiator)])
  }

  lemma CreateKeeps(w: World, r: Id, k: Id, isInitiator: bool, session: Session)
    requires Inv(w) && r in w.remotes && k !in w.keypairs
    ensures Inv(Create(w, r, k, isInitiator, session)) && !Slotted(Create(w, r, k, isInitiator, session), k)
  {
    var w' := Create(w, r, k, isInitiator, session);
    assert RemoteOk(w, r) && KeypairOk(w, k);
    UniqueInPart(w, w');
    StepKeeps(w, w', r, {k});
  }

  // ---- References -----------------------------------------------------------------------

  function Get(w: World, k: Id): World
    requires k in w.keypairs
  {
    var kp := w.keypairs[k];
    w.(keypairs := w.keypairs[k := kp.(refs := kp.refs + 1, holders := kp.holders + 1)])
  }

  lemma GetKeeps(w: World, k: Id)
    requires Inv(w) && k in w.keypairs
    ensures Inv(Get(w, k))
  {
    var w', r := Get(w, k), w.keypairs[k].remote;
    assert RemoteOk(w, r) && KeypairOk(w, k);
    UniqueInPart(w, w');
    StepKeeps(w, w', r, {k});
  }

  function Put(w: World, k: Id): World
    requires k in w.keypairs && w.keypairs[k].refs > 0 && w.keypairs[k].holders > 0
  {
    var kp := w.keypairs[k];
    w.(keypairs := Unref(w.keypairs[k := kp.(holders := kp.holders - 1)], k))
  }

  lemma PutKeeps(w: World, k: Id)
    requires Inv(w) && k in w.keypairs && w.keypairs[k].holders > 0
    ensures w.keypairs[k].refs > 0 && Inv(Put(w, k))
    ensures k in Put(w, k).keypairs <==> Slotted(w, k) || w.keypairs[k].holders > 1
  {
    assert KeypairOk(w, k);
    var w', r := Put(w, k), w.keypairs[k].remote;
    assert RemoteOk(w, r);
    UniqueInPart(w, w');
    StepKeeps(w, w', r, {k});
  }

  /** Taking a reference and giving it back changes nothing. */
  lemma GetThenPut(w: World, k: Id)
    requires Inv(w) && k in w.keypairs
    ensures Get(w, k).keypairs[k].refs > 1 && Put(Get(w, k), k) == w
  {
    assert KeypairOk(w, k);
    var kp := w.keypairs[k];
    assert Put(Get(w, k), k).keypairs == w.keypairs[k := kp] == w.keypairs;
  }

  // ---- Handshakes in the table ----------------------------------------------------------

  function Unlink(w: World, r: Id): World
    requires r in w.remotes
  {
    w.(remotes := w.remotes[r := w.remotes[r].(phase := Dead)], table := w.table - {HandshakeOf(r)})
  }

  lemma UnlinkKeeps(w: World, r: Id)
    requires Inv(w) && r in w.remotes
    ensures Inv(Unlink(w, r))
  {
    var w' := Unlink(w, r);
    assert RemoteOk(w, r);
    UniqueInPart(w, w');
    StepKeeps(w, w', r, {});
  }

  predicate Unused(w: World, index: u32) { forall e <- w.table :: IndexOf(w, e) != index }

  function Link(w: World, r: Id, index: u32, phase: Phase): World
    requires r in w.remotes
  {
    w.(remotes := w.remotes[r := w.remotes[r].(phase := phase, localIndex := index)], table := w.table + {HandshakeOf(r)})
  }

  lemma LinkKeeps(w: World, r: Id, index: u32, phase: Phase)
    requires Inv(w) && r in w.remotes && w.remotes[r].phase == Dead && phase != Dead && Unused(w, index)
    ensures Inv(Link(w, r, index, phase))
  {
    var w' := Link(w, r, index, phase);
    assert RemoteOk(w, r);
    UniqueWith(w, w', HandshakeOf(r), HandshakeOf(r));
    StepKeeps(w, w', r, {});
  }

  function AddRemote(w: World, r: Id, peer: Peer): World {
    w.(remotes := w.remotes[r := Remote(peer, Dead, 0, None, None, None)])
  }

  lemma AddRemoteKeeps(w: World, r: Id, peer: Peer)
    requires Inv(w) && r !in w.remotes
    ensures Inv(AddRemote(w, r, peer))
  {
    var w' := AddRemote(w, r, peer);
    assert RemoteOk(w, r);
    UniqueInPart(w, w');
    StepKeeps(w, w', r, {});
  }

  function SetPeer(w: World, r: Id, peer: Peer): World
    requires r in w.remotes
  {
    w.(remotes := w.remotes[r := w.remotes[r].(peer := peer)])
  }

  lemma SetPeerKeeps(w: World, r: Id, peer: Peer)
    requires Inv(w) && r in w.remotes
    ensures Inv(SetPeer(w, r, peer))
  {
    var w' := SetPeer(w, r, peer);
    assert RemoteOk(w, r);
    UniqueInPart(w, w');
    StepKeeps(w, w', r, {});
  }

  function SetSession(w: World, k: Id, session: Session): World
    requires k in w.keypairs
  {
    w.(keypairs := w.keypairs[k := w.keypairs[k].(session := session)])
  }

  lemma SetSessionKeeps(w: World, k: Id, session: Session)
    requires Inv(w) && k in w.keypairs
    ensures Inv(SetSession(w, k, session))
  {
    var w', r := SetSession(w, k, session), w.keypairs[k].remote;
    assert RemoteOk(w, r) && KeypairOk(w, k);
    UniqueInPart(w, w');
    StepKeeps(w, w', r, {k});
  }

  // ---- Rotation -------------------------------------------------------------------------

  lemma OtherThanSlots(w: World, r: Id, k: Id)
    requires Inv(w) && r in w.remotes && k in w.keypairs && !Slotted(w, k)
    ensures !InSlot(w.remotes[r], k)
  {
    assert RemoteOk(w, r);
  }

  /** What has to go before keypair k comes in, and where the rest moves. */
  function MakeRoom(w: World, r: Id, isInitiator: bool): World
    requires Inv(w) && r in w.remotes
  {
    var l := w.remotes[r];
    DropKeeps(w, r, Next);
    DropKeeps(w, r, Current);
    if !isInitiator then Drop(Drop(w, r, Next), r, Previous)
    else if l.next.Some? then Arrange(Drop(Drop(w, r, Current), r, Previous), r, None, None, l.next)
    else Arrange(Drop(w, r, Previous), r, None, None, l.current)
  }

  lemma SlotsApart(w: World, r: Id)
    requires Inv(w) && r in w.remotes
    ensures SlotsDistinct(w.remotes[r])
  {
    assert RemoteOk(w, r);
  }

  lemma MakeRoomKeeps(w: World, r: Id, isInitiator: bool)
    requires Inv(w) && r in w.remotes
    ensures var l, w' := w.remotes[r], MakeRoom(w, r, isInitiator);
      && Inv(w')
      && w'.remotes == w.remotes[r := if !isInitiator then l.(next := None, previous := None)
           else l.(next := None, current := None, previous := if l.next.Some? then l.next else l.current)]
      && forall k :: k in w.keypairs && !InSlot(w.remotes[r], k) ==> k in w'.keypairs && w'.keypairs[k] == w.keypairs[k]
  {
    var l := w.remotes[r];
    SlotsApart(w, r);
    hide Inv, Drop;
    DropKeeps(w, r, Next);
    DropKeeps(w, r, Current);
    if !isInitiator {
      DropKeeps(Drop(w, r, Next), r, Previous);
    } else if l.next.Some? {
      DropKeeps(Drop(w, r, Current), r, Previous);
      ArrangeKeeps(Drop(Drop(w, r, Current), r, Previous), r, None, None, l.next);
    } else {
      DropKeeps(w, r, Previous);
      ArrangeKeeps(Drop(w, r, Previous), r, None, None, l.current);
    }
  }

  /** A keypair of ours as initiator is used at once; ours as responder waits in the next slot
      until a packet comes in on it. */
  function AddKeypair(w: World, r: Id, k: Id): World
    requires Inv(w) && r in w.remotes && k in w.keypairs && w.keypairs[k].holders > 0 && !Slotted(w, k)
  {
    OtherThanSlots(w, r, k);
    MakeRoomKeeps(w, r, w.keypairs[k].isInitiator);
    Insert(MakeRoom(w, r, w.keypairs[k].isInitiator), r, k, if w.keypairs[k].isInitiator then Current else Next)
  }

  lemma AddKeypairKeeps(w: World, r: Id, k: Id)
    requires Inv(w) && r in w.remotes && w.remotes[r].phase != Dead
    requires k in w.keypairs && w.keypairs[k].holders > 0 && w.keypairs[k].remote == r && !Slotted(w, k)
    ensures var w' := AddKeypair(w, r, k);
      Inv(w') && Slotted(w', k) && k in w'.keypairs && w'.keypairs[k] == Indexed(w.keypairs[k], w.remotes[r])
    ensures var l := w.remotes[r];
      AddKeypair(w, r, k).remotes == w.remotes[r :=
        (if w.keypairs[k].isInitiator
               then Done(l).(next := None, current := Some(k), previous := if l.next.Some? then l.next else l.current)
               else Done(l).(next := Some(k), previous := None))]
  {
    var m := MakeRoom(w, r, w.keypairs[k].isInitiator);
    OtherThanSlots(w, r, k);
    MakeRoomKeeps(w, r, w.keypairs[k].isInitiator);
    hide Inv, MakeRoom;
    InsertKeeps(m, r, k, if w.keypairs[k].isInitiator then Current else Next);
  }

  predicate Droppable(keypairs: map<Id, Keypair>, o: Option<Id>) {
    o.Some? ==> o.value in keypairs && keypairs[o.value].refs > 0
  }

  function UnrefOpt(keypairs: map<Id, Keypair>, o: Option<Id>): map<Id, Keypair>
    requires Droppable(keypairs, o)
  {
    if o.Some? then Unref(keypairs, o.value) else keypairs
  }

  function Without(table: set<Entry>, o: Option<Id>): set<Entry> {
    if o.Some? then table - {KeypairOf(o.value)} else table
  }

  /** The keypairs that a new keypair of this kind displaces. */
  function Displaced(l: Remote, isInitiator: bool): (Option<Id>, Option<Id>) {
    (if !isInitiator then l.next else if l.next.Some? then l.current else None, l.previous)
  }

  lemma DropIs(w: World, r: Id, slot: Slot)
    requires Inv(w) && r in w.remotes
    ensures Droppable(w.keypairs, Occupant(w.remotes[r], slot))
    ensures var o := Occupant(w.remotes[r], slot);
      Drop(w, r, slot) == World(w.remotes[r := SetSlot(w.remotes[r], slot, None)], UnrefOpt(w.keypairs, o), Without(w.table, o))
  {
    if Occupant(w.remotes[r], slot).Some? {
      SlotOk(w, r, slot);
    } else {
      assert w.remotes[r := SetSlot(w.remotes[r], slot, None)] == w.remotes;
    }
  }

  lemma MakeRoomIs(w: World, r: Id, isInitiator: bool)
    requires Inv(w) && r in w.remotes
    ensures var (d, e) := Displaced(w.remotes[r], isInitiator);
      && Droppable(w.keypairs, d) && Droppable(UnrefOpt(w.keypairs, d), e)
      && MakeRoom(w, r, isInitiator).keypairs == UnrefOpt(UnrefOpt(w.keypairs, d), e)
      && MakeRoom(w, r, isInitiator).table == Without(Without(w.table, d), e)
  {
    var l, slot := w.remotes[r], if isInitiator then Current else Next;
    DropKeeps(w, r, slot);
    hide Inv, Drop, Unref;
    DropIs(w, r, slot);
    DropIs(Drop(w, r, slot), r, Previous);
    DropIs(w, r, Previous);
  }

  lemma AddKeypairIs(w: World, r: Id, k: Id)
    requires Inv(w) && r in w.remotes && k in w.keypairs && w.keypairs[k].holders > 0 && !Slotted(w, k)
    ensures var m := MakeRoom(w, r, w.keypairs[k].isInitiator);
      && r in m.remotes
      && var l := SetSlot(m.remotes[r], if w.keypairs[k].isInitiator then Current else Next, Some(k));
      && AddKeypair(w, r, k) == World(m.remotes[r := Done(l)], m.keypairs[k := Indexed(w.keypairs[k], l)],
                                      m.table - {HandshakeOf(r)} + {KeypairOf(k)})
  {
    OtherThanSlots(w, r, k);
    MakeRoomKeeps(w, r, w.keypairs[k].isInitiator);
    hide Inv, MakeRoom;
  }

  /** A packet came in on the next keypair: the initiator has it too, and it can be used. */
  function Promote(w: World, r: Id): World
    requires Inv(w) && r in w.remotes && w.remotes[r].next.Some?
  {
    var l, k := w.remotes[r], w.remotes[r].next.value;
    SlotOk(w, r, Next);
    MarkKeeps(w, k);
    var m := w.(keypairs := w.keypairs[k := w.keypairs[k].(received := true)]);
    DropKeeps(m, r, Previous);
    Arrange(Drop(m, r, Previous), r, None, l.next, l.current)
  }

  lemma MarkKeeps(w: World, k: Id)
    requires Inv(w) && k in w.keypairs
    ensures Inv(w.(keypairs := w.keypairs[k := w.keypairs[k].(received := true)]))
  {
    var w' := w.(keypairs := w.keypairs[k := w.keypairs[k].(received := true)]);
    var r := w.keypairs[k].remote;
    assert RemoteOk(w, r) && KeypairOk(w, k);
    UniqueInPart(w, w');
    StepKeeps(w, w', r, {k});
  }

  lemma PromoteKeeps(w: World, r: Id)
    requires Inv(w) && r in w.remotes && w.remotes[r].next.Some?
    ensures Inv(Promote(w, r))
    ensures Promote(w, r).remotes == w.remotes[r := w.remotes[r].(next := None, current := w.remotes[r].next, previous := w.remotes[r].current)]
  {
    var l, k := w.remotes[r], w.remotes[r].next.value;
    SlotOk(w, r, Next);
    SlotsApart(w, r);
    hide Inv, Drop, Slotted;
    var w1 := w.(keypairs := w.keypairs[k := w.keypairs[k].(received := true)]);
    MarkKeeps(w, k);
    DropKeeps(w1, r, Previous);
    var w2 := Drop(w1, r, Previous);
    assert InSlot(l, k);
    ArrangeKeeps(w2, r, None, l.next, l.current);
  }

  lemma PromoteIs(w: World, r: Id)
    requires Inv(w) && r in w.remotes && w.remotes[r].next.Some?
    ensures w.remotes[r].next.value in w.keypairs
    ensures var l, k := w.remotes[r], w.remotes[r].next.value;
      var keypairs := w.keypairs[k := w.keypairs[k].(received := true)];
      && Droppable(keypairs, l.previous)
      && Promote(w, r) == World(w.remotes[r := l.(next := None, current := l.next, previous := l.current)],
                                UnrefOpt(keypairs, l.previous), Without(w.table, l.previous))
  {
    SlotOk(w, r, Next);
    var k := w.remotes[r].next.value;
    MarkKeeps(w, k);
    hide Inv, Drop;
    DropIs(w.(keypairs := w.keypairs[k := w.keypairs[k].(received := true)]), r, Previous);
  }

  /** The keypair that was promoted is still there, with the same holders. */
  lemma PromoteHolds(w: World, r: Id)
    requires Inv(w) && r in w.remotes && w.remotes[r].next.Some?
    ensures var k, w' := w.remotes[r].next.value, Promote(w, r);
      && k in w.keypairs && k in w'.keypairs && w'.keypairs[k] == w.keypairs[k].(received := true)
      && w'.keypairs.Keys <= w.keypairs.Keys
  {
    PromoteIs(w, r);
    SlotsApart(w, r);
    hide Inv, Promote;
  }

  function Clear(w: World, r: Id): World
    requires Inv(w) && r in w.remotes
  {
    DropKeeps(w, r, Next);
    DropKeeps(Drop(w, r, Next), r, Current);
    Drop(Drop(Drop(w, r, Next), r, Current), r, Previous)
  }

  lemma ClearKeeps(w: World, r: Id)
    requires Inv(w) && r in w.remotes
    ensures Inv(Clear(w, r))
    ensures Clear(w, r).remotes == w.remotes[r := w.remotes[r].(next := None, current := None, previous := None)]
  {
    hide Inv, Drop;
    DropKeeps(w, r, Next);
    DropKeeps(Drop(w, r, Next), r, Current);
    DropKeeps(Drop(Drop(w, r, Next), r, Current), r, Previous);
  }

  /** Two entries of the table never share an index. */
  lemma SoleOwner(w: World, d: Entry, e: Entry)
    requires Inv(w) && d in w.table && e in w.table && IndexOf(w, d) == IndexOf(w, e)
    ensures d == e
  {
  }

  lemma EntryOk(w: World, e: Entry)
    requires Inv(w) && e in w.table
    ensures e.HandshakeOf? ==> e.remote in w.remotes && w.remotes[e.remote].phase != Dead
    ensures e.KeypairOf? ==> Slotted(w, e.keypair)
  {
    match e
    case HandshakeOf(r) => assert RemoteOk(w, r);
    case KeypairOf(k) => assert KeypairOk(w, k);
  }

  lemma TableKeypairs(w: World)
    requires Inv(w)
    ensures forall k :: KeypairOf(k) in w.table <==> Slotted(w, k)
  {
    forall k ensures KeypairOf(k) in w.table <==> Slotted(w, k) {
      assert KeypairOk(w, k);
    }
  }

  lemma TableHandshakes(w: World)
    requires Inv(w)
    ensures forall r :: HandshakeOf(r) in w.table <==> r in w.remotes && w.remotes[r].phase != Dead
  {
    forall r ensures HandshakeOf(r) in w.table <==> r in w.remotes && w.remotes[r].phase != Dead {
      assert RemoteOk(w, r);
    }
  }

  lemma UnlinkDead(w: World, r: Id)
    requires Inv(w) && r in w.remotes
    ensures w.remotes[r].phase == Dead ==> Unlink(w, r) == w
  {
    assert RemoteOk(w, r);
    assert w.remotes[r].phase == Dead ==> w.remotes[r := w.remotes[r].(phase := Dead)] == w.remotes;
  }
}
