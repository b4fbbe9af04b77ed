/** The state that the handshakes of one interface work on: peers, keypairs and the index table. */
module Noise {
  import opened Wrappers
  import opened Words
  import opened NoiseCrypto
  import opened Handshake
  import opened Keypairs
  import X25519

  const REKEY_TIMEOUT: nat := 5
  const REJECT_AFTER_TIME: nat := 180
  const REJECT_INTERVAL: nat := SECOND / 50
  const TIMER_RESET: int := -6 * SECOND

  datatype Accepted = Accepted(stamp: Stamp, at: int)

  predicate TimerExpired(now: int, timer: int, sec: nat, nsec: nat) { now > timer + sec * SECOND + nsec }

  /** Timestamps strictly increase in byte order, and acceptances are more than the interval apart. */
  ghost predicate Increasing(h: seq<Accepted>) {
    forall i, j :: 0 <= i < j < |h| ==> Before(h[i].stamp, h[j].stamp) && h[j].at > h[i].at + REJECT_INTERVAL
  }

  ghost predicate HistoryOf(stamp: Stamp, last: int, h: seq<Accepted>) {
    && Increasing(h)
    && (h != [] ==> h[|h| - 1].at == last && !Before(stamp, h[|h| - 1].stamp))
  }

  ghost predicate Histories(remotes: map<Id, Remote>, history: map<Id, seq<Accepted>>) {
    forall r <- remotes :: r in history && HistoryOf(remotes[r].peer.stamp, remotes[r].peer.lastInitRecv, history[r])
  }

  lemma HistoriesKept(before: map<Id, Remote>, after: map<Id, Remote>, history: map<Id, seq<Accepted>>, r: Id)
    requires Histories(before, history) && r in before && r in after
    requires after == before[r := after[r]] && after[r].peer.stamp == before[r].peer.stamp
    requires after[r].peer.lastInitRecv == before[r].peer.lastInitRecv
    ensures Histories(after, history)
  {
  }

  lemma BeforeTransitive(a: Stamp, b: Stamp, c: Stamp)
    requires !Before(b, a) && Before(b, c)
    ensures Before(a, c)
  {
    hide Before, BE;
    BeforeIsLess(b, a);
    BeforeIsLess(b, c);
    BeforeIsLess(a, c);
  }

  lemma HistoryGrows(old': Stamp, last': int, h: seq<Accepted>, stamp: Stamp, now: int)
    requires HistoryOf(old', last', h) && Before(old', stamp) && now > last' + REJECT_INTERVAL
    ensures HistoryOf(stamp, now, h + [Accepted(stamp, now)])
  {
    hide Before;
    var h' := h + [Accepted(stamp, now)];
    NotBeforeItself(stamp);
    forall i | 0 <= i < |h| ensures Before(h[i].stamp, stamp) && now > h[i].at + REJECT_INTERVAL {
      var last := h[|h| - 1];
      BeforeTransitive(last.stamp, old', stamp);
      if i < |h| - 1 {
        assert Before(h[i].stamp, last.stamp);
        Asymmetric(h[i].stamp, last.stamp);
        BeforeTransitive(h[i].stamp, last.stamp, stamp);
      }
    }
  }

  lemma Asymmetric(a: Stamp, b: Stamp)
    requires Before(a, b)
    ensures !Before(b, a)
  {
    hide Before, BE;
    BeforeIsLess(a, b);
    BeforeIsLess(b, a);
  }

  lemma NotBeforeItself(a: Stamp)
    ensures !Before(a, a)
  {
    hide Before, BE;
    BeforeIsLess(a, a);
  }

  /** A burnt timestamp does not harm the history. */
  lemma HistoryBurns(old': Stamp, last: int, h: seq<Accepted>, stamp: Stamp)
    requires HistoryOf(old', last, h) && Before(old', stamp)
    ensures HistoryOf(stamp, last, h)
  {
    hide Before;
    if h != [] {
      BeforeTransitive(h[|h| - 1].stamp, old', stamp);
      Asymmetric(h[|h| - 1].stamp, stamp);
    }
  }

  /** Somewhere in these random draws there is an index that the table does not hold. */
  ghost predicate Offers(w: World, draws: seq<u32>) {
    exists i :: 0 <= i < |draws| && Unused(w, draws[i])
  }

  class Local {
    var hasIdentity: bool
    var public: Key
    var priv: Key
    var remotes: map<Id, Remote>
    var keypairs: map<Id, Keypair>
    var table: set<Entry>
    ghost var history: map<Id, seq<Accepted>>

    function View(): World
      reads this`remotes, this`keypairs, this`table
    {
      World(remotes, keypairs, table)
    }

    ghost predicate Valid()
      reads this
    {
      Inv(View()) && Histories(remotes, history)
    }

    constructor ()
      ensures Valid() && !hasIdentity && remotes == map[] && keypairs == map[]
    {
      hasIdentity, public, priv := false, NO_KEY, NO_KEY;
      remotes, keypairs, table, history := map[], map[], {}, map[];
    }

    /** Gives the interface its static key, before any peer is known. */
    method SetIdentity(key: Key)
      requires Valid() && remotes == map[]
      modifies this`hasIdentity, this`public, this`priv
      ensures Valid() && hasIdentity && priv == X25519.Clamp(key) && public == Public(priv)
    {
      hide X25519.Dh, X25519.Clamp, Inv;
      priv := X25519.Clamp(key);
      public, hasIdentity := Public(priv), true;
    }

    // ---- Keypairs -----------------------------------------------------------------------

    /** Gives up the reference of a slot or of the caller; the last one frees the keypair. */
    method Release(k: Id)
      requires k in keypairs && keypairs[k].refs > 0
      modifies this`keypairs
      ensures keypairs == Unref(old(keypairs), k)
    {
      var refs := keypairs[k].refs - 1;
      if refs == 0 {
        keypairs := keypairs - {k};
      } else {
        keypairs := keypairs[k := keypairs[k].(refs := refs)];
      }
    }

    method KeypairDrop(k: Option<Id>)
      requires Droppable(keypairs, k)
      modifies this`keypairs, this`table
      ensures table == Without(old(table), k) && keypairs == UnrefOpt(old(keypairs), k)
    {
      if k.None? {
        return;
      }
      table := table - {KeypairOf(k.value)};
      Release(k.value);
    }

    /** The first half of adding a keypair, under the keypair lock: the slots. */
    method PlaceKeypair(r: Id, k: Id)
      requires Inv(View()) && r in remotes && k in keypairs && !Slotted(View(), k)
      modifies this`remotes, this`keypairs, this`table
      ensures var m := MakeRoom(old(View()), r, old(keypairs[k].isInitiator));
        && r in m.remotes && keypairs == m.keypairs && table == m.table
        && remotes == m.remotes[r := SetSlot(m.remotes[r], if old(keypairs[k].isInitiator) then Current else Next, Some(k))]
      ensures k in keypairs && keypairs[k] == old(keypairs[k])
    {
      hide Inv, Unref, MakeRoom, Slotted;
      ghost var w := View();
      OtherThanSlots(w, r, k);
      MakeRoomKeeps(w, r, keypairs[k].isInitiator);
      MakeRoomIs(w, r, keypairs[k].isInitiator);
      var next, current, previous := remotes[r].next, remotes[r].current, remotes[r].previous;
      if keypairs[k].isInitiator {
        if next.Some? {
          remotes := remotes[r := remotes[r].(next := None)];
          remotes := remotes[r := remotes[r].(previous := next)];
          KeypairDrop(current);
        } else {
          remotes := remotes[r := remotes[r].(previous := current)];
        }
        KeypairDrop(previous);
        remotes := remotes[r := remotes[r].(current := Some(k))];
      } else {
        remotes := remotes[r := remotes[r].(next := Some(k))];
        KeypairDrop(next);
        remotes := remotes[r := remotes[r].(previous := None)];
        KeypairDrop(previous);
      }
    }

    /** The second half: the keypair takes the place of the handshake in the index table. */
    method AddNewKeypair(r: Id, k: Id)
      requires Valid() && r in remotes && remotes[r].phase != Dead
      requires k in keypairs && keypairs[k].remote == r && keypairs[k].holders > 0 && !Slotted(View(), k)
      modifies this`remotes, this`keypairs, this`table
      ensures Valid() && View() == AddKeypair(old(View()), r, k)
    {
      ghost var w := View();
      AddKeypairKeeps(w, r, k);
      AddKeypairIs(w, r, k);
      HistoriesKept(w.remotes, AddKeypair(w, r, k).remotes, history, r);
      hide Inv, MakeRoom, AddKeypair, Slotted, SetSlot, Histories, Done, Indexed, UnrefOpt;
      PlaceKeypair(r, k);
      TakeIndex(r, k);
      assert View() == AddKeypair(w, r, k);
    }

    method TakeIndex(r: Id, k: Id)
      requires r in remotes && k in keypairs && keypairs[k].holders > 0
      modifies this`remotes, this`keypairs, this`table
      ensures table == old(table) - {HandshakeOf(r)} + {KeypairOf(k)}
      ensures keypairs == old(keypairs)[k := Indexed(old(keypairs[k]), old(remotes[r]))]
      ensures remotes == old(remotes)[r := Done(old(remotes[r]))]
    {
      keypairs := keypairs[k := keypairs[k].(localIndex := remotes[r].localIndex, holders := keypairs[k].holders - 1,
        session := keypairs[k].session.(remoteIndex := remotes[r].peer.remoteIndex))];
      table := table + {KeypairOf(k)};
      remotes := remotes[r := remotes[r].(phase := Dead)];
      table := table - {HandshakeOf(r)};
      remotes := remotes[r := remotes[r].(peer := remotes[r].peer.(hs := NO_HANDSHAKE))];
    }

    /** The first derived key is the initiator's sending key. */
    static method MakeSession(ck: Key, isInitiator: bool, now: int) returns (session: Session)
      ensures session == NewSession(ck, isInitiator, now)
    {
      hide Kdf;
      var first, second, _ := NoiseKdf([], 32, 32, 0, ck);
      if isInitiator {
        session := Session(0, true, now, first, second);
      } else {
        session := Session(0, true, now, second, first);
      }
    }

    method BeginSession(r: Id, alloc: Option<Id>, now: int) returns (rc: Errno)
      requires Valid() && r in remotes && remotes[r].phase != Dead
      requires alloc.Some? ==> alloc.value !in keypairs
      modifies this`remotes, this`keypairs, this`table
      ensures Valid()
      ensures alloc.None? ==> rc == ENOSPC && View() == old(View())
      ensures alloc.Some? ==> rc == Ok && View() == Begin(old(View()), r, alloc.value, now)
    {
      if alloc.None? {
        return ENOSPC;
      }
      var k := alloc.value;
      ghost var w := View();
      hide Inv, AddKeypair, Histories, Slotted, Made, Begin, Valid, Unref;
      MakeKeypair(r, k, now);
      AddNewKeypair(r, k);
      BeginIs(w, r, k, now);
      return Ok;
    }

    method MakeKeypair(r: Id, k: Id, now: int)
      requires Valid() && r in remotes && k !in keypairs
      modifies this`keypairs
      ensures Inv(old(View())) && Valid() && View() == Made(old(View()), r, k, now)
      ensures !Slotted(View(), k)
      ensures k in keypairs && keypairs[k].remote == r && keypairs[k].holders > 0
    {
      ghost var w := View();
      hide Inv, Slotted, NewSession, Histories;
      var isInitiator := remotes[r].phase == Initiator;
      var session := MakeSession(remotes[r].peer.hs.ck, isInitiator, now);
      keypairs := keypairs[k := Allocated(session, r, isInitiator)];
      assert View() == Made(w, r, k, now);
      MadeKeeps(w, r, k, now);
      hide Made;
    }

    method ReceivedWith(k: Id) returns (rc: Errno)
      requires Valid() && k in keypairs && keypairs[k].holders > 0 && keypairs[k].remote in remotes
      modifies this`remotes, this`keypairs, this`table
      ensures Valid()
      ensures var r := old(keypairs[k].remote);
        if old(remotes[r].next) == Some(k) then rc == ECONNRESET && View() == Promote(old(View()), r)
        else rc == Ok && View() == old(View())
      ensures k in keypairs && keypairs[k].holders == old(keypairs[k].holders) && keypairs.Keys <= old(keypairs.Keys)
      ensures var l := old(remotes[keypairs[k].remote]);
        remotes == if l.next != Some(k) then old(remotes)
                   else old(remotes)[old(keypairs[k].remote) := l.(next := None, current := l.next, previous := l.current)]
    {
      var r := keypairs[k].remote;
      if remotes[r].next != Some(k) {
        return Ok;
      }
      ghost var w := View();
      PromoteKeeps(w, r);
      PromoteIs(w, r);
      PromoteHolds(w, r);
      HistoriesKept(remotes, Promote(w, r).remotes, history, r);
      hide Inv, Promote, Unref, Histories, Without;
      keypairs := keypairs[k := keypairs[k].(received := true)];
      var previous := remotes[r].previous;
      remotes := remotes[r := remotes[r].(previous := remotes[r].current)];
      KeypairDrop(previous);
      remotes := remotes[r := remotes[r].(current := Some(k))];
      remotes := remotes[r := remotes[r].(next := None)];
      assert View() == Promote(w, r);
      return ECONNRESET;
    }

    method DropSlot(r: Id, slot: Slot)
      requires Valid() && r in remotes
      modifies this`remotes, this`keypairs, this`table
      ensures Valid() && View() == Drop(old(View()), r, slot)
      ensures remotes == old(remotes)[r := SetSlot(old(remotes[r]), slot, None)]
    {
      ghost var w := View();
      DropKeeps(w, r, slot);
      DropIs(w, r, slot);
      hide Inv, Drop, UnrefOpt, Histories, Without;
      var kp := Occupant(remotes[r], slot);
      remotes := remotes[r := SetSlot(remotes[r], slot, None)];
      KeypairDrop(kp);
      HistoriesKept(w.remotes, remotes, history, r);
      assert View() == Drop(w, r, slot);
    }

    method KeypairsClear(r: Id)
      requires Valid() && r in remotes
      modifies this`remotes, this`keypairs, this`table
      ensures Valid() && View() == Clear(old(View()), r)
      ensures remotes == old(remotes)[r := old(remotes[r]).(next := None, current := None, previous := None)]
    {
      hide Inv, Drop, Histories;
      ClearKeeps(View(), r);
      DropSlot(r, Next);
      DropSlot(r, Current);
      DropSlot(r, Previous);
    }

    method KeypairRef(k: Id)
      requires Valid() && k in keypairs
      modifies this`keypairs
      ensures Valid() && View() == Get(old(View()), k)
    {
      GetKeeps(View(), k);
      hide Inv, Histories;
      keypairs := keypairs[k := keypairs[k].(refs := keypairs[k].refs + 1, holders := keypairs[k].holders + 1)];
    }

    /** The keypair is freed exactly when nothing refers to it any more. */
    method KeypairPut(k: Id)
      requires Valid() && k in keypairs && keypairs[k].holders > 0
      modifies this`keypairs
      ensures Valid() && old(keypairs[k].refs) > 0 && View() == Put(old(View()), k)
      ensures keypairs.Keys <= old(keypairs.Keys)
      ensures k in keypairs <==> old(Slotted(View(), k)) || old(keypairs[k].holders) > 1
    {
      PutKeeps(View(), k);
      hide Inv, Unref, Histories, Slotted;
      keypairs := keypairs[k := keypairs[k].(holders := keypairs[k].holders - 1)];
      Release(k);
    }

    /** Finds the keypair that owns the index, if a slot still holds it. */
    method KeypairLookup(index: u32) returns (k: Option<Id>)
      requires Valid()
      modifies this`keypairs
      ensures Valid()
      ensures forall j :: k == Some(j) <==> old(Slotted(View(), j) && keypairs[j].localIndex == index)
      ensures View() == (if k.Some? && k.value in old(keypairs) then Get(old(View()), k.value) else old(View()))
    {
      k := None;
      TableKeypairs(View());
      if e :| e in table && e.KeypairOf? && IndexOf(View(), e) == index {
        forall d | d in table && IndexOf(View(), d) == index ensures d == e {
          SoleOwner(View(), d, e);
        }
        KeypairRef(e.keypair);
        k := Some(e.keypair);
      }
    }

    predicate Usable(k: Id, now: int)
      reads this`keypairs
    {
      k in keypairs && keypairs[k].session.canSend && !TimerExpired(now, keypairs[k].session.birthdate, REJECT_AFTER_TIME, 0)
    }

    /** The keypair to send on: young enough, not used up, and confirmed. */
    method KeypairCurrent(r: Id, now: int) returns (k: Option<Id>)
      requires Valid() && r in remotes
      modifies this`keypairs
      ensures Valid()
      ensures var c := old(remotes[r].current); k == if c.Some? && old(Usable(c.value, now)) then c else None
      ensures k.Some? ==> k.value in old(keypairs) && Confirmed(old(keypairs[k.value])) && View() == Get(old(View()), k.value)
      ensures k.None? ==> keypairs.Keys == old(keypairs.Keys)
    {
      k := remotes[r].current;
      if k.None? {
        return None;
      }
      SlotOk(View(), r, Current);
      assert RemoteOk(View(), r);
      var session := keypairs[k.value].session;
      if !session.canSend {
        return None;
      }
      if TimerExpired(now, session.birthdate, REJECT_AFTER_TIME, 0) {
        SetSessionKeeps(View(), k.value, session.(canSend := false));
        keypairs := keypairs[k.value := keypairs[k.value].(session := session.(canSend := false))];
        return None;
      }
      KeypairRef(k.value);
    }

    // ---- The index table ----------------------------------------------------------------

    method IndexRemove(r: Id) returns (removed: bool)
      requires Valid() && r in remotes
      modifies this`remotes, this`table
      ensures Valid() && removed == (old(remotes[r].phase) != Dead)
      ensures View() == Unlink(old(View()), r)
      ensures remotes == old(remotes)[r := old(remotes[r]).(phase := Dead)]
    {
      ghost var w := View();
      UnlinkKeeps(w, r);
      UnlinkDead(w, r);
      hide Inv, Histories;
      removed := remotes[r].phase != Dead;
      if removed {
        remotes := remotes[r := remotes[r].(phase := Dead)];
        table := table - {HandshakeOf(r)};
      }
      assert View() == Unlink(w, r);
      HistoriesKept(w.remotes, remotes, history, r);
    }

    predicate Taken(index: u32)
      reads this`remotes, this`keypairs, this`table
    {
      exists e | e in table :: IndexOf(View(), e) == index
    }

    /** Draws indices until one is free; the random source must offer one. */
    method DrawIndex(draws: seq<u32>) returns (index: u32)
      requires Offers(View(), draws)
      ensures Unused(View(), index)
    {
      hide IndexOf;
      var i := 0;
      while Taken(draws[i])
        invariant 0 <= i < |draws|
        invariant exists j :: i <= j < |draws| && Unused(View(), draws[j])
        decreases |draws| - i
      {
        i := i + 1;
      }
      index := draws[i];
    }

    /** The handshake of r enters the table under a new index. */
    method IndexInsert(r: Id, draws: seq<u32>, phase: Phase) returns (index: u32)
      requires Valid() && r in remotes && phase != Dead
      requires Offers(Unlink(View(), r), draws)
      modifies this`remotes, this`table
      ensures Valid()
      ensures Unused(Unlink(old(View()), r), index)
      ensures remotes == old(remotes)[r := old(remotes[r]).(phase := phase, localIndex := index)]
      ensures table == old(table) + {HandshakeOf(r)}
    {
      hide Inv, Histories, Unused;
      var _ := IndexRemove(r);
      index := DrawIndex(draws);
      LinkKeeps(View(), r, index, phase);
      ghost var before := remotes;
      remotes := remotes[r := remotes[r].(phase := phase, localIndex := index)];
      table := table + {HandshakeOf(r)};
      HistoriesKept(before, remotes, history, r);
    }

    predicate OwnsByHandshake(r: Id, index: u32)
      reads this`remotes
    {
      r in remotes && remotes[r].phase != Dead && remotes[r].localIndex == index
    }

    ghost predicate OwnsByKeypair(r: Id, index: u32)
      reads this`remotes, this`keypairs, this`table
    {
      exists k :: Slotted(View(), k) && keypairs[k].remote == r && keypairs[k].localIndex == index
    }

    /** The remote that owns the index: through its handshake, or also through one of its keypairs. */
    method IndexLookup(index: u32, lookupKeypair: bool) returns (r: Option<Id>)
      requires Valid()
      ensures r.Some? ==> r.value in remotes
      ensures !lookupKeypair ==> forall x ::
        (r == Some(x) <==> x in remotes && OwnsByHandshake(x, index))
      ensures lookupKeypair ==> forall x ::
        (r == Some(x) <==> x in remotes && (OwnsByHandshake(x, index) || OwnsByKeypair(x, index)))
    {
      TableKeypairs(View());
      TableHandshakes(View());
      r := None;
      if e :| e in table && IndexOf(View(), e) == index {
        forall d | d in table && IndexOf(View(), d) == index ensures d == e {
          SoleOwner(View(), d, e);
        }
        EntryOk(View(), e);
        hide Inv;
        match e {
          case HandshakeOf(x) =>
            r := Some(x);
            assert forall k :: Slotted(View(), k) ==> KeypairOf(k) in table;
          case KeypairOf(k) =>
            if lookupKeypair {
              r := Some(keypairs[k].remote);
            }
            assert forall x :: x in remotes && remotes[x].phase != Dead ==> HandshakeOf(x) in table;
        }
      }
    }

    method SetPeerOf(r: Id, peer: Peer)
      requires Valid() && r in remotes
      requires peer.stamp == remotes[r].peer.stamp && peer.lastInitRecv == remotes[r].peer.lastInitRecv
      modifies this`remotes
      ensures Valid() && Inv(View()) && View() == SetPeer(old(View()), r, peer)
      ensures remotes == old(remotes)[r := old(remotes[r]).(peer := peer)]
    {
      ghost var w := View();
      SetPeerKeeps(w, r, peer);
      hide Inv, Histories;
      remotes := remotes[r := remotes[r].(peer := peer)];
      HistoriesKept(w.remotes, remotes, history, r);
    }

    method HandshakeClear(r: Id)
      requires Valid() && r in remotes
      modifies this`remotes, this`table
      ensures Valid() && table == old(table) - {HandshakeOf(r)}
      ensures var l := old(remotes[r]);
        remotes == old(remotes)[r := l.(phase := Dead,
          peer := l.peer.(hs := if l.phase == Dead then l.peer.hs else NO_HANDSHAKE, lastSent := TIMER_RESET))]
    {
      hide Inv, Histories;
      var removed := IndexRemove(r);
      var peer := remotes[r].peer;
      if removed {
        peer := peer.(hs := NO_HANDSHAKE);
      }
      SetPeerOf(r, peer.(lastSent := TIMER_RESET));
    }

    // ---- Remotes ------------------------------------------------------------------------

    method RemoteAlloc(r: Id, key: Key)
      requires Valid() && r !in remotes
      modifies this`remotes, this`history
      ensures Valid()
      ensures remotes == old(remotes)[r := Remote(Peer(key, NO_KEY, if hasIdentity then X25519.Dh(priv, key) else NO_KEY,
        NO_HANDSHAKE, 0, TIMER_RESET, TIMER_RESET, Zeros(12), false), Dead, 0, None, None, None)]
    {
      var ss: Key := if hasIdentity then X25519.Dh(priv, key) else NO_KEY;
      var peer := Peer(key, NO_KEY, ss, NO_HANDSHAKE, 0, TIMER_RESET, TIMER_RESET, Zeros(12), false);
      AddRemoteKeeps(View(), r, peer);
      hide Inv, X25519.Dh;
      remotes := remotes[r := Remote(peer, Dead, 0, None, None, None)];
      history := history[r := []];
    }

    method RemoteLookup(key: Key) returns (r: Option<Id>)
      ensures r.Some? ==> Enabled(r.value, key)
      ensures r.None? ==> forall s :: !Enabled(s, key)
    {
      r := None;
      if s :| s in remotes && remotes[s].peer.enabled && remotes[s].peer.public == key {
        r := Some(s);
      }
    }

    predicate Enabled(r: Id, key: Key)
      reads this`remotes
    {
      r in remotes && remotes[r].peer.enabled && remotes[r].peer.public == key
    }

    // ---- Handshake messages -------------------------------------------------------------

    function LastSent(r: Id): int
      reads this`remotes
    {
      if r in remotes then remotes[r].peer.lastSent else TIMER_RESET
    }

    /** The first message that r would get, if its secrets are usable. */
    function Opening(r: Id, random: Key, sec: nat, nsec: nat): Option<Initiation>
      reads this`remotes, this`public
    {
      if r in remotes then Initiate(public, X25519.Clamp(random), remotes[r].peer.public, remotes[r].peer.ss, Tai64n(sec, nsec)) else None
    }

    method CreateInitiation(r: Id, random: Key, draws: seq<u32>, now: int, sec: nat, nsec: nat)
      returns (rc: Errno, sIdx: u32, ue: Key, es: seq<byte>, ets: seq<byte>, ghost m: Option<Initiation>)
      requires Valid() && r in remotes
      requires Offers(Unlink(View(), r), draws)
      modifies this`remotes, this`table
      ensures Valid()
      ensures rc == (if hasIdentity && TimerExpired(now, old(LastSent(r)), REKEY_TIMEOUT, 0) && m.Some? then Ok else EINVAL)
      ensures rc == Ok ==>
        && m.Some? && ue == m.value.ue && es == m.value.es && ets == m.value.ets
        && Unused(Unlink(old(View()), r), sIdx)
        && remotes == old(remotes)[r := Initiating(old(remotes[r]), sIdx, m.value.hs, now)]
        && table == old(table) + {HandshakeOf(r)}
      ensures rc != Ok ==> r in remotes && View() == SetPeer(old(View()), r, old(remotes[r].peer).(hs := remotes[r].peer.hs))
      ensures m == old(Opening(r, random, sec, nsec))
    {
      hide Inv, Histories, Valid, Initiate, Tai64n, X25519.Clamp;
      var peer := remotes[r].peer;
      sIdx, ue, es, ets := 0, NO_KEY, [], [];
      var e: Key := X25519.Clamp(random);
      m := Initiate(public, e, peer.public, peer.ss, Tai64n(sec, nsec));
      if !hasIdentity || !TimerExpired(now, peer.lastSent, REKEY_TIMEOUT, 0) {
        assert remotes == remotes[r := remotes[r]];
        return EINVAL, sIdx, ue, es, ets, m;
      }
      var ok, hs;
      ok, hs, ue, es, ets := OpeningFields(public, e, peer.public, peer.ss, Tai64n(sec, nsec));
      if !ok {
        SetPeerOf(r, peer.(hs := hs));
        return EINVAL, sIdx, ue, es, ets, m;
      }
      sIdx := IndexInsert(r, draws, Initiator);
      SetPeerOf(r, peer.(hs := hs, lastSent := now));
      return Ok, sIdx, ue, es, ets, m;
    }

    /** The fields of a first message, and the handshake as the computation leaves it. */
    static method OpeningFields(public: Key, e: Key, responder: Key, ss: Key, stamp: Stamp)
      returns (ok: bool, hs: HandshakeState, ue: Key, es: seq<byte>, ets: seq<byte>)
      ensures var m := Initiate(public, e, responder, ss, stamp);
        ok == m.Some? && (ok ==> hs == m.value.hs && ue == m.value.ue && es == m.value.es && ets == m.value.ets)
    {
      hide X25519.Dh, ParamInit, MixEphemeral, SealField, MixSecret;
      ue, es, ets := Public(e), [], [];
      var s := MixEphemeral(ParamInit(responder), ue);
      var mixed := MixDh(s, e, responder);
      if mixed.None? {
        return false, HandshakeState(e, s.hash, s.ck), ue, es, ets;
      }
      var field := SealField(mixed.value.0, mixed.value.1, public);
      es, s := field.0, field.1;
      mixed := MixSecret(s, ss);
      if mixed.None? {
        return false, HandshakeState(e, s.hash, s.ck), ue, es, ets;
      }
      field := SealField(mixed.value.0, mixed.value.1, stamp);
      return true, HandshakeState(e, field.1.hash, field.1.ck), ue, es, field.0;
    }

    /** The message proves that it comes from the enabled peer r, and carries this timestamp. */
    predicate Claims(r: Id, ue: Key, es: seq<byte>, ets: seq<byte>, stamp: Stamp, hs: HandshakeState)
      requires |ets| == 28
      reads this`hasIdentity, this`remotes, this`priv, this`public
    {
      && hasIdentity && r in remotes && remotes[r].peer.enabled
      && ReadInitiation(priv, public, remotes[r].peer.public, remotes[r].peer.ss, ue, es, ets) == Some((stamp, hs))
    }

    /** Neither replayed nor too soon. */
    predicate Timely(r: Id, stamp: Stamp, now: int)
      reads this`remotes
    {
      && r in remotes && Before(remotes[r].peer.stamp, stamp)
      && TimerExpired(now, remotes[r].peer.lastInitRecv, 0, REJECT_INTERVAL)
    }

    ghost predicate Sole(r: Id)
      reads this`remotes
    {
      r in remotes && forall s :: Enabled(s, remotes[r].peer.public) ==> s == r
    }

    /** Finds out who sent a first message; nothing changes yet. */
    method Authenticate(ue: Key, es: seq<byte>, ets: seq<byte>)
      returns (r: Option<Id>, stamp: Stamp, hs: HandshakeState)
      requires |es| == 48 && |ets| == 28
      ensures r.Some? ==> Claims(r.value, ue, es, ets, stamp, hs)
      ensures forall s, t, h :: Claims(s, ue, es, ets, t, h) && Sole(s) ==> r == Some(s) && t == stamp && h == hs
    {
      hide X25519.Dh, ParamInit, MixEphemeral, OpenField, MixSecret;
      r, stamp, hs := None, Zeros(12), NO_HANDSHAKE;
      if !hasIdentity {
        return;
      }
      var s := MixEphemeral(ParamInit(public), ue);
      var mixed := MixDh(s, priv, ue);
      if mixed.None? {
        return;
      }
      var field := OpenField(mixed.value.0, mixed.value.1, es);
      if field.None? {
        return;
      }
      var found := RemoteLookup(field.value.0);
      assert forall s, t, h :: Claims(s, ue, es, ets, t, h) ==> Enabled(s, field.value.0);
      if found.None? {
        return;
      }
      mixed := MixSecret(field.value.1, remotes[found.value].peer.ss);
      if mixed.None? {
        return;
      }
      field := OpenField(mixed.value.0, mixed.value.1, ets);
      if field.None? {
        return;
      }
      r, stamp, hs := found, field.value.0, HandshakeState(ue, field.value.1.hash, field.value.1.ck);
    }

    method SetStamp(r: Id, stamp: Stamp)
      requires Valid() && r in remotes && Before(remotes[r].peer.stamp, stamp)
      modifies this`remotes
      ensures Valid() && View() == SetPeer(old(View()), r, old(remotes[r].peer).(stamp := stamp))
    {
      var peer := remotes[r].peer.(stamp := stamp);
      SetPeerKeeps(View(), r, peer);
      HistoryBurns(remotes[r].peer.stamp, remotes[r].peer.lastInitRecv, history[r], stamp);
      hide Inv, HistoryOf;
      remotes := remotes[r := remotes[r].(peer := peer)];
    }

    /** Accepts a first message; a timestamp is spent even when the message then comes too soon. */
    method ConsumeInitiation(sIdx: u32, ue: Key, es: seq<byte>, ets: seq<byte>, draws: seq<u32>, now: int)
      returns (rc: Errno, rp: Option<Id>, ghost burnt: Option<Id>, ghost stamp: Stamp, ghost hs: HandshakeState)
      requires Valid() && |es| == 48 && |ets| == 28
      requires Offers(View(), draws)
      modifies this`remotes, this`table, this`history
      ensures Valid() && rc == (if rp.Some? then Ok else EINVAL)
      ensures forall r, t, h :: old(Claims(r, ue, es, ets, t, h) && Sole(r) && Timely(r, t, now)) ==> rp == Some(r)
      ensures rp.Some? ==>
        && old(Claims(rp.value, ue, es, ets, stamp, hs) && Timely(rp.value, stamp, now))
        && rp.value in remotes && Unused(Unlink(old(View()), rp.value), remotes[rp.value].localIndex)
        && remotes == old(remotes)[rp.value := Responding(old(remotes[rp.value]), remotes[rp.value].localIndex, sIdx, stamp, hs, now)]
        && table == old(table) + {HandshakeOf(rp.value)}
        && rp.value in old(history) && history == old(history)[rp.value := old(history)[rp.value] + [Accepted(stamp, now)]]
      ensures rp.None? ==> table == old(table) && history == old(history)
      ensures rp.None? && burnt.None? ==> remotes == old(remotes)
      ensures rp.None? && burnt.Some? ==>
        && old(Claims(burnt.value, ue, es, ets, stamp, hs) && Before(remotes[burnt.value].peer.stamp, stamp))
        && View() == SetPeer(old(View()), burnt.value, old(remotes[burnt.value].peer).(stamp := stamp))
    {
      hide Inv, Histories, HistoryOf, ReadInitiation, Before, Unused;
      rp, burnt := None, None;
      var found, at, state := Authenticate(ue, es, ets);
      stamp, hs := at, state;
      forall s, t, h | old(Claims(s, ue, es, ets, t, h) && Sole(s)) ensures found == Some(s) && t == at {
        assert Claims(s, ue, es, ets, t, h) && Sole(s);
      }
      if found.None? {
        return EINVAL, None, None, stamp, hs;
      }
      var r := found.value;
      if !Before(remotes[r].peer.stamp, at) {
        return EINVAL, None, None, stamp, hs;
      }
      if !TimerExpired(now, remotes[r].peer.lastInitRecv, 0, REJECT_INTERVAL) {
        SetStamp(r, at);
        return EINVAL, None, found, stamp, hs;
      }
      Accept(r, sIdx, at, state, draws, now);
      return Ok, Some(r), None, stamp, hs;
    }

    /** The changes of an accepted first message. */
    method Accept(r: Id, sIdx: u32, stamp: Stamp, hs: HandshakeState, draws: seq<u32>, now: int)
      requires Valid() && Timely(r, stamp, now)
      requires Offers(View(), draws)
      modifies this`remotes, this`table, this`history
      ensures Valid() && r in remotes && Unused(Unlink(old(View()), r), remotes[r].localIndex)
      ensures remotes == old(remotes)[r := Responding(old(remotes[r]), remotes[r].localIndex, sIdx, stamp, hs, now)]
      ensures table == old(table) + {HandshakeOf(r)}
      ensures r in old(history) && history == old(history)[r := old(history)[r] + [Accepted(stamp, now)]]
    {
      assert r in history;
      hide Inv, Histories, Before;
      UnlinkFrees(View(), r);
      var index := IndexInsert(r, draws, Responder);
      RecordAccepted(r, sIdx, stamp, hs, now);
    }

    method RecordAccepted(r: Id, sIdx: u32, stamp: Stamp, hs: HandshakeState, now: int)
      requires Valid() && Timely(r, stamp, now)
      modifies this`remotes, this`history
      ensures Valid() && r in old(history) && history == old(history)[r := old(history)[r] + [Accepted(stamp, now)]]
      ensures remotes == old(remotes)[r := old(remotes[r]).(
        peer := old(remotes[r].peer).(hs := hs, remoteIndex := sIdx, stamp := stamp, lastInitRecv := now))]
    {
      var peer := remotes[r].peer.(hs := hs, remoteIndex := sIdx, stamp := stamp, lastInitRecv := now);
      SetPeerKeeps(View(), r, peer);
      HistoryGrows(remotes[r].peer.stamp, remotes[r].peer.lastInitRecv, history[r], stamp, now);
      hide Inv, HistoryOf;
      remotes := remotes[r := remotes[r].(peer := peer)];
      history := history[r := history[r] + [Accepted(stamp, now)]];
    }

    /** The fields of a second message, and the handshake as the computation leaves it. */
    static method AnswerFields(hs: HandshakeState, e: Key, initiator: Key, psk: Key)
      returns (ok: bool, hs': HandshakeState, ue: Key, en: seq<byte>)
      ensures var m := Respond(hs, e, initiator, psk);
        ok == m.Some? && (ok ==> hs' == m.value.hs && ue == m.value.ue && en == m.value.en)
    {
      hide X25519.Dh, MixEphemeral, SealField, MixSecret, MixPsk;
      ue, en := Public(e), [];
      var s := MixEphemeral(Symmetric(hs.ck, hs.hash), ue);
      var mixed := MixDh(s, e, hs.e);
      if mixed.None? {
        return false, hs.(hash := s.hash, ck := s.ck), ue, en;
      }
      s := mixed.value.0;
      mixed := MixDh(s, e, initiator);
      if mixed.None? {
        return false, hs.(hash := s.hash, ck := s.ck), ue, en;
      }
      var keyed := MixPsk(mixed.value.0, psk);
      var field := SealField(keyed.0, keyed.1, []);
      return true, hs.(hash := field.1.hash, ck := field.1.ck), ue, field.0;
    }

    /** Answers the first message of r; the new keypair waits for the initiator to use it. */
    method CreateResponse(r: Id, random: Key, alloc: Option<Id>, now: int)
      returns (rc: Errno, sIdx: u32, rIdx: u32, ue: Key, en: seq<byte>, ghost m: Option<Response>)
      requires Valid() && r in remotes && (alloc.Some? ==> alloc.value !in keypairs)
      modifies this`remotes, this`keypairs, this`table
      ensures Valid()
      ensures rc == (if old(remotes[r].phase) != Responder || m.None? then EINVAL else if alloc.None? then ENOSPC else Ok)
      ensures old(remotes[r].phase) != Responder ==> View() == old(View())
      ensures rc == EINVAL ==> r in remotes && View() == SetPeer(old(View()), r, old(remotes[r].peer).(hs := remotes[r].peer.hs))
      ensures rc == ENOSPC ==> m.Some? && View() == SetPeer(old(View()), r, old(remotes[r].peer).(hs := m.value.hs))
      ensures rc == Ok ==>
        && m.Some? && alloc.Some? && ue == m.value.ue && en == m.value.en
        && sIdx == old(remotes[r].localIndex) && rIdx == old(remotes[r].peer.remoteIndex)
        && View() == Respondent(SetPeer(old(View()), r, old(remotes[r].peer).(hs := m.value.hs)), r, alloc.value, now)
      ensures var p := old(remotes[r].peer); m == Respond(p.hs, X25519.Clamp(random), p.public, p.psk)
    {
      hide Inv, Histories, Valid, Respond, X25519.Clamp, Respondent, Slotted;
      sIdx, rIdx, ue, en := 0, 0, NO_KEY, [];
      var peer := remotes[r].peer;
      m := Respond(peer.hs, X25519.Clamp(random), peer.public, peer.psk);
      assert remotes == remotes[r := remotes[r]];
      if remotes[r].phase != Responder {
        return EINVAL, sIdx, rIdx, ue, en, m;
      }
      var ok, hs;
      ok, hs, ue, en := AnswerFields(peer.hs, X25519.Clamp(random), peer.public, peer.psk);
      SetPeerOf(r, peer.(hs := hs));
      if !ok {
        return EINVAL, sIdx, rIdx, ue, en, m;
      }
      rc, sIdx, rIdx := BeginAsResponder(r, alloc, now);
    }

    method BeginAsResponder(r: Id, alloc: Option<Id>, now: int) returns (rc: Errno, sIdx: u32, rIdx: u32)
      requires Valid() && r in remotes && remotes[r].phase == Responder
      requires alloc.Some? ==> alloc.value !in keypairs
      modifies this`remotes, this`keypairs, this`table
      ensures Valid() && rc == (if alloc.None? then ENOSPC else Ok)
      ensures alloc.None? ==> View() == old(View())
      ensures alloc.Some? ==> View() == Respondent(old(View()), r, alloc.value, now)
      ensures alloc.Some? ==> sIdx == old(remotes[r].localIndex) && rIdx == old(remotes[r].peer.remoteIndex)
    {
      ghost var w := View();
      assert Inv(w);
      hide Inv, Histories, Valid, Begin, Slotted;
      sIdx, rIdx := 0, 0;
      rc := BeginSession(r, alloc, now);
      if rc == Ok {
        BeginKeepsIndices(w, r, alloc.value, now);
        sIdx, rIdx := remotes[r].localIndex, remotes[r].peer.remoteIndex;
        SetPeerOf(r, remotes[r].peer.(lastSent := now));
      }
    }

    /** Checks a second message without changing anything. */
    method CheckResponse(r: Id, rIdx: u32, ue: Key, en: seq<byte>) returns (m: Option<HandshakeState>)
      requires r in remotes && |en| == 16
      ensures m == (if remotes[r].phase != Initiator then None
                    else ReadResponse(remotes[r].peer.hs, priv, remotes[r].peer.psk, ue, en))
    {
      hide X25519.Dh, MixEphemeral, OpenField, MixSecret, MixPsk;
      if remotes[r].phase != Initiator {
        return None;
      }
      var psk, hs := remotes[r].peer.psk, remotes[r].peer.hs;
      var s := MixEphemeral(Symmetric(hs.ck, hs.hash), ue);
      var mixed := MixDh(s, hs.e, ue);
      if mixed.None? {
        return None;
      }
      mixed := MixDh(mixed.value.0, priv, ue);
      if mixed.None? {
        return None;
      }
      var keyed := MixPsk(mixed.value.0, psk);
      var field := OpenField(keyed.0, keyed.1, en);
      if field.None? {
        return None;
      }
      return Some(hs.(hash := field.value.1.hash, ck := field.value.1.ck));
    }

    /** Accepts the answer to our first message; the new keypair is used at once. */
    method ConsumeResponse(sIdx: u32, rIdx: u32, ue: Key, en: seq<byte>, alloc: Option<Id>, now: int)
      returns (rc: Errno, rp: Option<Id>)
      requires Valid() && |en| == 16 && (alloc.Some? ==> alloc.value !in keypairs)
      modifies this`remotes, this`keypairs, this`table
      ensures Valid() && (rc == Ok <==> rp.Some?) && rc in {Ok, EINVAL, ENOSPC}
      ensures rc == EINVAL ==> View() == old(View())
      ensures forall r :: old(Answered(r, rIdx, ue, en)) ==> rc != EINVAL && (alloc.Some? ==> rp == Some(r))
      ensures rc == Ok ==> alloc.Some? && old(Answered(rp.value, rIdx, ue, en))
      ensures rc == Ok ==>
        View() == Begin(SetPeer(old(View()), rp.value, old(AnsweredPeer(rp.value, sIdx, ue, en))), rp.value, alloc.value, now)
      ensures rc == ENOSPC ==> alloc.None? && keypairs == old(keypairs) && table == old(table)
    {
      hide Inv, Histories, ReadResponse, Begin, Slotted;
      rp := None;
      var found := IndexLookup(rIdx, false);
      assert forall r :: Answered(r, rIdx, ue, en) ==> found == Some(r);
      if found.None? || !hasIdentity {
        return EINVAL, None;
      }
      var r := found.value;
      var m := CheckResponse(r, rIdx, ue, en);
      if m.None? {
        return EINVAL, None;
      }
      SetPeerOf(r, remotes[r].peer.(hs := m.value, remoteIndex := sIdx));
      rc := BeginSession(r, alloc, now);
      if rc == Ok {
        rp := Some(r);
      }
    }

    /** The message answers the handshake of ours that has this index. */
    predicate Answered(r: Id, rIdx: u32, ue: Key, en: seq<byte>)
      reads this`hasIdentity, this`remotes, this`priv
    {
      && hasIdentity && OwnsByHandshake(r, rIdx) && remotes[r].phase == Initiator
      && ReadResponse(remotes[r].peer.hs, priv, remotes[r].peer.psk, ue, en).Some?
    }

    function AnsweredPeer(r: Id, sIdx: u32, ue: Key, en: seq<byte>): Peer
      requires r in remotes
      reads this`remotes, this`priv
    {
      var m := ReadResponse(remotes[r].peer.hs, priv, remotes[r].peer.psk, ue, en);
      if m.Some? then remotes[r].peer.(hs := m.value, remoteIndex := sIdx) else remotes[r].peer
    }
  }

  lemma BeginKeepsIndices(w: World, r: Id, k: Id, now: int)
    requires Inv(w) && r in w.remotes && k !in w.keypairs && w.remotes[r].phase != Dead
    ensures var b := Begin(w, r, k, now).remotes;
      r in b && b[r].localIndex == w.remotes[r].localIndex && b[r].peer.remoteIndex == w.remotes[r].peer.remoteIndex
  {
    hide Inv, Begin, Slotted, Allocated;
    BeginResult(w, r, k, now);
  }

  /** A session begun by the responder, who also notes when it sent the second message. */
  ghost function Respondent(w: World, r: Id, k: Id, now: int): World {
    var b := Begin(w, r, k, now);
    if r in b.remotes then SetPeer(b, r, b.remotes[r].peer.(lastSent := now)) else b
  }

  /** A remote that a first message went out to. */
  function Initiating(l: Remote, index: u32, hs: HandshakeState, now: int): Remote {
    l.(phase := Initiator, localIndex := index, peer := l.peer.(hs := hs, lastSent := now))
  }

  /** A remote whose first message was accepted. */
  function Responding(l: Remote, index: u32, sIdx: u32, stamp: Stamp, hs: HandshakeState, now: int): Remote {
    l.(phase := Responder, localIndex := index,
       peer := l.peer.(hs := hs, remoteIndex := sIdx, stamp := stamp, lastInitRecv := now))
  }

  lemma UnlinkFrees(w: World, r: Id)
    requires r in w.remotes
    ensures forall index: u32 :: Unused(w, index) ==> Unused(Unlink(w, r), index)
  {
    forall e ensures IndexOf(Unlink(w, r), e) == IndexOf(w, e) {
    }
  }

  function NewSession(ck: Key, isInitiator: bool, now: int): Session {
    var keys := SessionKeys(ck, isInitiator);
    Session(0, true, now, keys.send, keys.recv)
  }

  function Made(w: World, r: Id, k: Id, now: int): World
    requires r in w.remotes
  {
    var isInitiator := w.remotes[r].phase == Initiator;
    Create(w, r, k, isInitiator, NewSession(w.remotes[r].peer.hs.ck, isInitiator, now))
  }

  lemma MadeKeeps(w: World, r: Id, k: Id, now: int)
    requires Inv(w) && r in w.remotes && k !in w.keypairs
    ensures Inv(Made(w, r, k, now)) && !Slotted(Made(w, r, k, now), k)
  {
    hide NewSession;
    var isInitiator := w.remotes[r].phase == Initiator;
    CreateKeeps(w, r, k, isInitiator, NewSession(w.remotes[r].peer.hs.ck, isInitiator, now));
  }

  /** Beginning a session: a keypair is made and takes its slot. */
  ghost function Begin(w: World, r: Id, k: Id, now: int): World {
    if Inv(w) && r in w.remotes && k !in w.keypairs
    then
      MadeKeeps(w, r, k, now);
      AddKeypair(Made(w, r, k, now), r, k)
    else w
  }

  lemma MadeIs(w: World, r: Id, k: Id, now: int)
    requires r in w.remotes
    ensures var m, isInitiator := Made(w, r, k, now), w.remotes[r].phase == Initiator;
      && m.remotes == w.remotes && k in m.keypairs
      && m.keypairs[k] == Allocated(NewSession(w.remotes[r].peer.hs.ck, isInitiator, now), r, isInitiator)
  {
  }

  /** What the slots and the keypair look like after a session has begun. */
  lemma BeginResult(w: World, r: Id, k: Id, now: int)
    requires Inv(w) && r in w.remotes && k !in w.keypairs && w.remotes[r].phase != Dead
    ensures var w', l, isInitiator := Begin(w, r, k, now), w.remotes[r], w.remotes[r].phase == Initiator;
      && Inv(w') && Slotted(w', k) && k in w'.keypairs
      && w'.keypairs[k] == Indexed(Allocated(NewSession(l.peer.hs.ck, isInitiator, now), r, isInitiator), l)
      && w'.remotes == w.remotes[r :=
           if isInitiator then Done(l).(next := None, current := Some(k), previous := if l.next.Some? then l.next else l.current)
           else Done(l).(next := Some(k), previous := None)]
  {
    hide Inv, NewSession, Slotted, AddKeypair, Made, Begin, Done, Indexed;
    var m := Made(w, r, k, now);
    BeginIs(w, r, k, now);
    MadeIs(w, r, k, now);
    assert m.keypairs[k].holders > 0 && m.keypairs[k].remote == r && (m.keypairs[k].isInitiator <==> w.remotes[r].phase == Initiator);
    hide Allocated;
    AddKeypairKeeps(m, r, k);
  }

  lemma BeginIs(w: World, r: Id, k: Id, now: int)
    requires Inv(w) && r in w.remotes && k !in w.keypairs
    ensures Inv(Made(w, r, k, now)) && k in Made(w, r, k, now).keypairs && Made(w, r, k, now).keypairs[k].holders > 0
    ensures r in Made(w, r, k, now).remotes && !Slotted(Made(w, r, k, now), k)
    ensures Begin(w, r, k, now) == AddKeypair(Made(w, r, k, now), r, k)
  {
    MadeKeeps(w, r, k, now);
  }

  // ---- A whole exchange -----------------------------------------------------------------

  /** Each side knows the other: public keys, pre-shared key, and the static secret computed from them. */
  ghost predicate Know(sI: Key, ri: map<Id, Remote>, pi: Id, sR: Key, rr: map<Id, Remote>, pr: Id) {
    && pi in ri && pr in rr && rr[pr].peer.enabled
    && (forall s <- rr :: rr[s].peer.enabled && rr[s].peer.public == rr[pr].peer.public ==> s == pr)
    && ri[pi].peer.public == Public(sR) && rr[pr].peer.public == Public(sI) && ri[pi].peer.psk == rr[pr].peer.psk
    && ri[pi].peer.ss == X25519.Dh(sI, Public(sR)) && rr[pr].peer.ss == X25519.Dh(sR, Public(sI))
  }

  ghost predicate Acquainted(i: Local, pi: Id, r: Local, pr: Id)
    reads i, r
  {
    && i.hasIdentity && r.hasIdentity && i.public == Public(i.priv) && r.public == Public(r.priv)
    && Know(i.priv, i.remotes, pi, r.priv, r.remotes, pr)
  }

  /** The four secrets are usable, and both sides compute the same ones. */
  ghost predicate Shared(si: Key, ei: Key, sr: Key, er: Key) {
    && Commute(ei, sr) && Commute(si, sr) && Commute(er, ei) && Commute(er, si)
    && X25519.Dh(ei, Public(sr)) != Zeros(32) && X25519.Dh(si, Public(sr)) != Zeros(32)
    && X25519.Dh(er, Public(ei)) != Zeros(32) && X25519.Dh(er, Public(si)) != Zeros(32)
  }

  lemma InitiateWorks(public: Key, e: Key, responder: Key, ss: Key, stamp: Stamp)
    requires X25519.Dh(e, responder) != Zeros(32) && ss != Zeros(32)
    ensures Initiate(public, e, responder, ss, stamp).Some?
    ensures Initiate(public, e, responder, ss, stamp).value.hs.e == e
    ensures Initiate(public, e, responder, ss, stamp).value.ue == Public(e)
  {
    hide X25519.Dh, Kdf, Hash, SealField;
  }

  lemma RespondWorks(hs: HandshakeState, e: Key, initiator: Key, psk: Key)
    requires X25519.Dh(e, hs.e) != Zeros(32) && X25519.Dh(e, initiator) != Zeros(32)
    ensures Respond(hs, e, initiator, psk).Some? && |Respond(hs, e, initiator, psk).value.en| == 16
  {
    hide X25519.Dh, Kdf, Hash;
  }

  /** After the first message: one chaining key and hash, and the responder knows our index. */
  ghost predicate HalfWay(i: Local, pi: Id, r: Local, pr: Id, ei: Key)
    reads i, r
  {
    && i.hasIdentity && r.hasIdentity && i.public == Public(i.priv)
    && pi in i.remotes && pr in r.remotes
    && r.remotes[pr].peer.public == i.public && i.remotes[pi].peer.psk == r.remotes[pr].peer.psk
    && i.remotes[pi].phase == Initiator && r.remotes[pr].phase == Responder
    && r.remotes[pr].peer.remoteIndex == i.remotes[pi].localIndex
    && i.remotes[pi].peer.hs.e == ei
    && r.remotes[pr].peer.hs == HandshakeState(Public(ei), i.remotes[pi].peer.hs.hash, i.remotes[pi].peer.hs.ck)
  }

  /** Nothing but remote r has changed, and its handshake is in the table. */
  predicate Linked(w: World, w': World, r: Id) {
    && r in w'.remotes && w'.remotes == w.remotes[r := w'.remotes[r]] && w'.keypairs == w.keypairs
    && w'.table == w.table + {HandshakeOf(r)}
  }

  predicate SameStatics(p: Peer, q: Peer) {
    q.public == p.public && q.psk == p.psk && q.ss == p.ss && q.enabled == p.enabled
  }

  method FirstMessage(i: Local, pi: Id, r: Local, pr: Id, randomI: Key, drawsI: seq<u32>, drawsR: seq<u32>,
                      sec: nat, nsec: nat, t1: int, t2: int, ghost er: Key)
    requires i != r && i.Valid() && r.Valid() && Acquainted(i, pi, r, pr)
    requires Shared(i.priv, X25519.Clamp(randomI), r.priv, er)
    requires TimerExpired(t1, i.remotes[pi].peer.lastSent, REKEY_TIMEOUT, 0)
    requires r.Timely(pr, Tai64n(sec, nsec), t2)
    requires Offers(Unlink(i.View(), pi), drawsI)
    requires Offers(r.View(), drawsR)
    modifies i`remotes, i`table, r`remotes, r`table, r`history
    ensures i.Valid() && r.Valid() && HalfWay(i, pi, r, pr, X25519.Clamp(randomI))
    ensures pi in i.remotes && pr in r.remotes
    ensures SameStatics(old(i.remotes[pi].peer), i.remotes[pi].peer)
    ensures SameStatics(old(r.remotes[pr].peer), r.remotes[pr].peer)
    ensures i.remotes[pi].peer.lastSent == t1
    ensures r.remotes[pr].peer.stamp == Tai64n(sec, nsec) && r.remotes[pr].peer.lastInitRecv == t2
    ensures pr in old(r.history)
    ensures r.history == old(r.history)[pr := old(r.history)[pr] + [Accepted(Tai64n(sec, nsec), t2)]]
    ensures Linked(old(i.View()), i.View(), pi) && Linked(old(r.View()), r.View(), pr)
  {
    hide Inv, Histories, Initiate, ReadInitiation, Respond, ReadResponse, Before, Tai64n, X25519.Clamp, X25519.Dh;
    hide Unused;
    ghost var si, ei, sr := i.priv, X25519.Clamp(randomI), r.priv;
    ghost var ss, stamp := i.remotes[pi].peer.ss, Tai64n(sec, nsec);
    InitiateWorks(i.public, ei, r.public, ss, stamp);
    StaticRecovered(si, ei, sr, ss, stamp);
    var rc, sIdx, ue, es, ets, first := i.CreateInitiation(pi, randomI, drawsI, t1, sec, nsec);
    ghost var m := first.value;
    ghost var hs := HandshakeState(ue, m.hs.hash, m.hs.ck);
    assert r.Claims(pr, ue, es, ets, stamp, hs);
    var rp;
    ghost var burnt, at, state;
    rc, rp, burnt, at, state := r.ConsumeInitiation(sIdx, ue, es, ets, drawsR, t2);
    assert rp == Some(pr) && state == hs;
  }

  /** Nothing but remote r and its place in the table may have changed. */
  ghost predicate Near(w: World, w': World, r: Id) {
    && r in w'.remotes && w'.remotes == w.remotes[r := w'.remotes[r]] && w'.keypairs == w.keypairs
    && w'.table - {HandshakeOf(r)} == w.table - {HandshakeOf(r)}
  }

  lemma NearStill(w: World, w': World, w'': World, r: Id)
    requires Near(w, w', r) && Linked(w', w'', r)
    ensures Near(w, w'', r)
  {
  }

  /** The draws hold two indices that are free but for the handshake of r. */
  ghost predicate OffersTwo(w: World, r: Id, draws: seq<u32>)
    requires r in w.remotes
  {
    exists m, n :: 0 <= m < |draws| && 0 <= n < |draws| && draws[m] != draws[n]
      && Unused(Unlink(w, r), draws[m]) && Unused(Unlink(w, r), draws[n])
  }

  lemma StillOffers(w: World, w': World, r: Id, draws: seq<u32>)
    requires r in w.remotes && Near(w, w', r) && OffersTwo(w, r, draws)
    ensures Offers(w', draws) && Offers(Unlink(w', r), draws)
  {
    var m, n :| 0 <= m < |draws| && 0 <= n < |draws| && draws[m] != draws[n]
      && Unused(Unlink(w, r), draws[m]) && Unused(Unlink(w, r), draws[n]);
    var x := if draws[m] != w'.remotes[r].localIndex then m else n;
    forall e | e in w'.table ensures IndexOf(w', e) != draws[x] {
      if e != HandshakeOf(r) {
        assert e in w'.table - {HandshakeOf(r)};
        assert e in Unlink(w, r).table && IndexOf(Unlink(w, r), e) == IndexOf(w', e);
      }
    }
    assert Unused(w', draws[x]);
    forall e | e in Unlink(w', r).table ensures IndexOf(Unlink(w', r), e) != draws[x] {
      assert e in w'.table && IndexOf(Unlink(w', r), e) == IndexOf(w', e);
    }
    assert Unused(Unlink(w', r), draws[x]);
  }

  lemma StillKnow(sI: Key, w: World, w': World, pi: Id, sR: Key, v: World, v': World, pr: Id)
    requires Know(sI, w.remotes, pi, sR, v.remotes, pr) && Linked(w, w', pi) && Linked(v, v', pr)
    requires pi in w.remotes && SameStatics(w.remotes[pi].peer, w'.remotes[pi].peer)
    requires pr in v.remotes && SameStatics(v.remotes[pr].peer, v'.remotes[pr].peer)
    ensures Know(sI, w'.remotes, pi, sR, v'.remotes, pr)
  {
    hide X25519.Dh;
    assert forall s :: s in v.remotes && s != pr ==> s in v'.remotes && v'.remotes[s] == v.remotes[s];
  }

  lemma KnowEach(sI: Key, w: World, pi: Id, sR: Key, v: World, pr: Id)
    requires Know(sI, w.remotes, pi, sR, v.remotes, pr)
    ensures pi in w.remotes && pr in v.remotes
  {
  }

  /** One first message and its arrival: the random numbers of both sides, the wall clock when it is made,
      and the tick clocks when it is made and when it is heard. */
  datatype Opened = Opened(random: Key, drawsI: seq<u32>, drawsR: seq<u32>, sec: nat, nsec: nat, sent: int, heard: int)

  function StampOf(o: Opened): Stamp { Tai64n(o.sec, o.nsec) }

  function Acceptances(calls: seq<Opened>): seq<Accepted> {
    seq(|calls|, k requires 0 <= k < |calls| => Accepted(StampOf(calls[k]), calls[k].heard))
  }

  /** More than the rekey timeout apart, on a wall clock that keeps up with the tick clock, and heard apart. */
  predicate Apart(o: Opened, o': Opened) {
    && TimerExpired(o'.sent, o.sent, REKEY_TIMEOUT, 0) && TimerExpired(o'.heard, o.heard, 0, REJECT_INTERVAL)
    && o.sec * SECOND + o.nsec + (o'.sent - o.sent) <= o'.sec * SECOND + o'.nsec
    && o.sec < 0x8000_0000_0000_0000 && o.nsec < SECOND && o'.sec < 0x8000_0000_0000_0000 && o'.nsec < SECOND
  }

  lemma ApartIsTimely(o: Opened, o': Opened)
    requires Apart(o, o')
    ensures Before(StampOf(o), StampOf(o')) && TimerExpired(o'.heard, o.heard, 0, REJECT_INTERVAL)
    ensures TimerExpired(o'.sent, o.sent, REKEY_TIMEOUT, 0)
  {
    StampsAdvance(o.sec, o.nsec, o'.sec, o'.nsec);
    hide Before, Tai64n;
  }

  /** Both sides can draw an index, and the secrets are usable. */
  ghost predicate Workable(sI: Key, w: World, pi: Id, sR: Key, v: World, pr: Id, o: Opened) {
    && pi in w.remotes && pr in v.remotes && (exists er :: Shared(sI, X25519.Clamp(o.random), sR, er))
    && OffersTwo(w, pi, o.drawsI) && OffersTwo(v, pr, o.drawsR)
  }

  lemma NearKeeps(w: World, w': World, r: Id)
    requires Near(w, w', r)
    ensures r in w'.remotes
  {
  }

  lemma NearSelf(w: World, r: Id)
    requires r in w.remotes
    ensures Near(w, w, r)
  {
  }

  /** The two know each other, and since w and v only their handshake with each other has changed. */
  ghost predicate InTouch(i: Local, pi: Id, r: Local, pr: Id, w: World, v: World)
    reads i, r
  {
    && i.Valid() && r.Valid() && Acquainted(i, pi, r, pr) && pi in w.remotes && pr in v.remotes
    && Near(w, i.View(), pi) && Near(v, r.View(), pr) && pr in r.history
  }

  ghost predicate Due(i: Local, pi: Id, r: Local, pr: Id, o: Opened)
    reads i, r
  {
    && pi in i.remotes && TimerExpired(o.sent, i.remotes[pi].peer.lastSent, REKEY_TIMEOUT, 0)
    && r.Timely(pr, StampOf(o), o.heard)
  }

  /** This message was the last to go through. */
  ghost predicate Through(i: Local, pi: Id, r: Local, pr: Id, o: Opened)
    reads i, r
  {
    && pi in i.remotes && i.remotes[pi].peer.lastSent == o.sent
    && pr in r.remotes && r.remotes[pr].peer.stamp == StampOf(o) && r.remotes[pr].peer.lastInitRecv == o.heard
  }

  /** After it any message that is far enough apart is due. */
  lemma NextIsDue(i: Local, pi: Id, r: Local, pr: Id, o: Opened, o': Opened)
    requires Through(i, pi, r, pr, o) && Apart(o, o')
    ensures Due(i, pi, r, pr, o')
  {
    ApartIsTimely(o, o');
    hide Before, StampOf;
  }

  ghost predicate InTurn(calls: seq<Opened>) {
    forall j, k :: 0 <= j < k < |calls| && j + 1 == k ==> Apart(calls[j], calls[k])
  }

  ghost predicate AllWorkable(sI: Key, w: World, pi: Id, sR: Key, v: World, pr: Id, calls: seq<Opened>) {
    forall o <- calls :: Workable(sI, w, pi, sR, v, pr, o)
  }

  lemma HeadAndTail(sI: Key, w: World, pi: Id, sR: Key, v: World, pr: Id, calls: seq<Opened>)
    requires calls != []
    requires InTurn(calls) && AllWorkable(sI, w, pi, sR, v, pr, calls)
    ensures Workable(sI, w, pi, sR, v, pr, calls[0]) && AllWorkable(sI, w, pi, sR, v, pr, calls[1..])
    ensures InTurn(calls[1..]) && (calls[1..] != [] ==> Apart(calls[0], calls[1..][0]))
    ensures Acceptances(calls) == [Accepted(StampOf(calls[0]), calls[0].heard)] + Acceptances(calls[1..])
  {
    hide Workable, Apart, StampOf;
    var tail := calls[1..];
    if tail != [] { assert Apart(calls[0], calls[1]); }
    forall j, k | 0 <= j && j + 1 == k < |tail| ensures Apart(tail[j], tail[k]) {
      assert Apart(calls[j + 1], calls[k + 1]);
    }
  }

  /** One of these messages. */
  method OneMore(i: Local, pi: Id, r: Local, pr: Id, o: Opened, ghost w: World, ghost v: World)
    requires i != r && InTouch(i, pi, r, pr, w, v) && Due(i, pi, r, pr, o) && pr in r.history
    requires Workable(i.priv, w, pi, r.priv, v, pr, o)
    modifies i`remotes, i`table, r`remotes, r`table, r`history
    ensures InTouch(i, pi, r, pr, w, v) && Through(i, pi, r, pr, o) && pr in r.history
    ensures HalfWay(i, pi, r, pr, X25519.Clamp(o.random))
    ensures r.history[pr] == old(r.history)[pr] + [Accepted(StampOf(o), o.heard)]
  {
    hide Local.Valid, Shared, HalfWay, X25519.Clamp, X25519.Dh, Tai64n, Before, Offers, OffersTwo, Know, SameStatics;
    hide Linked, Near;
    ghost var w', v' := i.View(), r.View();
    ghost var er :| Shared(i.priv, X25519.Clamp(o.random), r.priv, er);
    KnowEach(i.priv, w', pi, r.priv, v', pr);
    StillOffers(w, w', pi, o.drawsI);
    StillOffers(v, v', pr, o.drawsR);
    FirstMessage(i, pi, r, pr, o.random, o.drawsI, o.drawsR, o.sec, o.nsec, o.sent, o.heard, er);
    StillKnow(i.priv, w', i.View(), pi, r.priv, v', r.View(), pr);
    NearStill(w, w', i.View(), pi);
    NearStill(v, v', r.View(), pr);
  }

  /** The first of these messages; the second is due then. */
  method Foremost(i: Local, pi: Id, r: Local, pr: Id, calls: seq<Opened>, ghost w: World, ghost v: World)
    requires i != r && InTouch(i, pi, r, pr, w, v) && calls != [] && Due(i, pi, r, pr, calls[0]) && pr in r.history
    requires InTurn(calls) && AllWorkable(i.priv, w, pi, r.priv, v, pr, calls)
    modifies i`remotes, i`table, r`remotes, r`table, r`history
    ensures InTouch(i, pi, r, pr, w, v) && HalfWay(i, pi, r, pr, X25519.Clamp(calls[0].random)) && pr in r.history
    ensures var tail := calls[1..];
      && InTurn(tail) && AllWorkable(i.priv, w, pi, r.priv, v, pr, tail) && (tail != [] ==> Due(i, pi, r, pr, tail[0]))
      && r.history[pr] + Acceptances(tail) == old(r.history)[pr] + Acceptances(calls)
  {
    hide InTouch, HalfWay, X25519.Clamp, Due, Workable, AllWorkable, InTurn, Acceptances, Apart, StampOf, Through;
    HeadAndTail(i.priv, w, pi, r.priv, v, pr, calls);
    ghost var before, one, tail := r.history[pr], Accepted(StampOf(calls[0]), calls[0].heard), calls[1..];
    OneMore(i, pi, r, pr, calls[0], w, v);
    if tail != [] {
      NextIsDue(i, pi, r, pr, calls[0], tail[0]);
    }
    assert (before + [one]) + Acceptances(tail) == before + ([one] + Acceptances(tail));
  }

  method Reinitiations(i: Local, pi: Id, r: Local, pr: Id, calls: seq<Opened>, ghost w: World, ghost v: World)
    requires i != r && InTouch(i, pi, r, pr, w, v) && (calls != [] ==> Due(i, pi, r, pr, calls[0])) && pr in r.history
    requires InTurn(calls) && AllWorkable(i.priv, w, pi, r.priv, v, pr, calls)
    modifies i`remotes, i`table, r`remotes, r`table, r`history
    ensures InTouch(i, pi, r, pr, w, v) && pr in r.history
    ensures calls != [] ==> HalfWay(i, pi, r, pr, X25519.Clamp(calls[|calls| - 1].random))
    ensures r.history[pr] == old(r.history)[pr] + Acceptances(calls)
    decreases |calls|
  {
    hide InTouch, HalfWay, X25519.Clamp, Due, AllWorkable, InTurn;
    if calls != [] {
      var tail := calls[1..];
      Foremost(i, pi, r, pr, calls, w, v);
      if tail != [] {
        Reinitiations(i, pi, r, pr, tail, w, v);
      }
    }
  }

  /** Any number of first messages to one peer, each in its time: none is ever taken for a replay or for
      a flood, and all are accepted in their turn. */
  method Reinitiate(i: Local, pi: Id, r: Local, pr: Id, calls: seq<Opened>)
    requires i != r && i.Valid() && r.Valid() && Acquainted(i, pi, r, pr) && pi in i.remotes && pr in r.remotes
    requires AllWorkable(i.priv, i.View(), pi, r.priv, r.View(), pr, calls)
    requires InTurn(calls)
    requires calls != [] ==> TimerExpired(calls[0].sent, i.remotes[pi].peer.lastSent, REKEY_TIMEOUT, 0)
    requires calls != [] ==> r.Timely(pr, StampOf(calls[0]), calls[0].heard)
    modifies i`remotes, i`table, r`remotes, r`table, r`history
    ensures i.Valid() && r.Valid() && pr in r.remotes && pr in r.history
    ensures calls != [] ==> HalfWay(i, pi, r, pr, X25519.Clamp(calls[|calls| - 1].random))
    ensures pr in old(r.history) && r.history[pr] == old(r.history)[pr] + Acceptances(calls)
  {
    ghost var w, v := i.View(), r.View();
    assert pr in r.history;
    NearSelf(w, pi);
    NearSelf(v, pr);
    hide Local.Valid, HalfWay, Acquainted, Near, AllWorkable, InTurn, X25519.Clamp, TimerExpired;
    Reinitiations(i, pi, r, pr, calls, w, v);
    NearKeeps(v, r.View(), pr);
  }

  ghost predicate Mirrored(a: Keypair, b: Keypair) {
    && a.isInitiator && !b.isInitiator
    && a.session.send == b.session.recv && a.session.recv == b.session.send
    && a.localIndex == b.session.remoteIndex && a.session.remoteIndex == b.localIndex
  }

  /** The responder's side of the second message. */
  method Answer(r: Local, pr: Id, randomR: Key, kr: Id, t: int) returns (sIdx: u32, rIdx: u32, ue: Key, en: seq<byte>)
    requires r.Valid() && pr in r.remotes && r.remotes[pr].phase == Responder && kr !in r.keypairs
    requires var p := r.remotes[pr].peer; Respond(p.hs, X25519.Clamp(randomR), p.public, p.psk).Some?
    modifies r`remotes, r`keypairs, r`table
    ensures r.Valid() && pr in r.remotes && kr in r.keypairs && r.remotes[pr].next == Some(kr)
    ensures var l := old(r.remotes[pr]);
      var n := Respond(l.peer.hs, X25519.Clamp(randomR), l.peer.public, l.peer.psk).value;
      && sIdx == l.localIndex && rIdx == l.peer.remoteIndex && ue == n.ue && en == n.en
      && r.keypairs[kr].session == NewSession(n.hs.ck, false, t).(remoteIndex := rIdx)
      && r.keypairs[kr].localIndex == sIdx && !r.keypairs[kr].isInitiator
  {
    hide Inv, Histories, Respond, Begin, Slotted, X25519.Clamp, NewSession;
    ghost var peer := r.remotes[pr].peer;
    ghost var n := Respond(peer.hs, X25519.Clamp(randomR), peer.public, peer.psk).value;
    SetPeerKeeps(r.View(), pr, peer.(hs := n.hs));
    BeginResult(SetPeer(r.View(), pr, peer.(hs := n.hs)), pr, kr, t);
    var rc;
    ghost var m;
    rc, sIdx, rIdx, ue, en, m := r.CreateResponse(pr, randomR, Some(kr), t);
  }

  /** The initiator's side of the second message. */
  method Complete(i: Local, pi: Id, sIdx: u32, rIdx: u32, ue: Key, en: seq<byte>, ki: Id, t: int)
    requires i.Valid() && |en| == 16 && i.Answered(pi, rIdx, ue, en) && ki !in i.keypairs
    modifies i`remotes, i`keypairs, i`table
    ensures i.Valid() && pi in i.remotes && ki in i.keypairs && i.remotes[pi].current == Some(ki)
    ensures var hs := ReadResponse(old(i.remotes[pi].peer.hs), i.priv, old(i.remotes[pi].peer.psk), ue, en);
      && hs.Some? && i.keypairs[ki].session == NewSession(hs.value.ck, true, t).(remoteIndex := sIdx)
      && i.keypairs[ki].localIndex == rIdx && i.keypairs[ki].isInitiator
  {
    hide Inv, Histories, ReadResponse, Begin, Slotted, NewSession;
    ghost var peer := i.AnsweredPeer(pi, sIdx, ue, en);
    SetPeerKeeps(i.View(), pi, peer);
    BeginResult(SetPeer(i.View(), pi, peer), pi, ki, t);
    var rc, rp := i.ConsumeResponse(sIdx, rIdx, ue, en, Some(ki), t);
  }

  method SecondMessage(i: Local, pi: Id, r: Local, pr: Id, randomR: Key, ki: Id, kr: Id, t3: int, t4: int,
                       ghost ei: Key, ghost sr: Key)
    requires i != r && i.Valid() && r.Valid() && HalfWay(i, pi, r, pr, ei)
    requires Shared(i.priv, ei, sr, X25519.Clamp(randomR))
    requires ki !in i.keypairs && kr !in r.keypairs
    modifies i`remotes, i`keypairs, i`table, r`remotes, r`keypairs, r`table
    ensures i.Valid() && r.Valid() && pi in i.remotes && pr in r.remotes
    ensures ki in i.keypairs && i.remotes[pi].current == Some(ki) && kr in r.keypairs && r.remotes[pr].next == Some(kr)
    ensures Mirrored(i.keypairs[ki], r.keypairs[kr])
  {
    hide Inv, Histories, Respond, ReadResponse, Kdf, X25519.Clamp, X25519.Dh;
    ghost var si, er, hs, psk := i.priv, X25519.Clamp(randomR), r.remotes[pr].peer.hs, r.remotes[pr].peer.psk;
    RespondWorks(hs, er, i.public, psk);
    ResponseAccepted(si, ei, er, psk, hs.hash, hs.ck);
    var sIdx, rIdx, ue, en := Answer(r, pr, randomR, kr, t3);
    Complete(i, pi, sIdx, rIdx, ue, en, ki, t4);
  }

  /** Unmodified messages and a fair clock: both sides end with keypairs that mirror each other. */
  method Exchange(i: Local, pi: Id, r: Local, pr: Id, randomI: Key, randomR: Key, drawsI: seq<u32>, drawsR: seq<u32>,
                  ki: Id, kr: Id, sec: nat, nsec: nat, t1: int, t2: int, t3: int, t4: int)
    requires i != r && i.Valid() && r.Valid() && Acquainted(i, pi, r, pr)
    requires Shared(i.priv, X25519.Clamp(randomI), r.priv, X25519.Clamp(randomR))
    requires TimerExpired(t1, i.remotes[pi].peer.lastSent, REKEY_TIMEOUT, 0)
    requires r.Timely(pr, Tai64n(sec, nsec), t2)
    requires Offers(Unlink(i.View(), pi), drawsI)
    requires Offers(r.View(), drawsR)
    requires ki !in i.keypairs && kr !in r.keypairs
    modifies i`remotes, i`keypairs, i`table, r`remotes, r`keypairs, r`table, r`history
    ensures i.Valid() && r.Valid() && pi in i.remotes && pr in r.remotes
    ensures ki in i.keypairs && i.remotes[pi].current == Some(ki) && kr in r.keypairs && r.remotes[pr].next == Some(kr)
    ensures Mirrored(i.keypairs[ki], r.keypairs[kr])
  {
    hide Inv, Histories, X25519.Clamp, X25519.Dh, HalfWay, Mirrored;
    FirstMessage(i, pi, r, pr, randomI, drawsI, drawsR, sec, nsec, t1, t2, X25519.Clamp(randomR));
    SecondMessage(i, pi, r, pr, randomR, ki, kr, t3, t4, X25519.Clamp(randomI), r.priv);
  }
}
