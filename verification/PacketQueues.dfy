/** Packets on their way through one parallel queue of crypto work and a serial queue per peer, as a
    machine whose steps are the critical sections of the senders, the workers and the deliverers. */
module PacketQueues {
  import opened Wrappers

  const MAX_QUEUED_PKT: nat := 1024

  type Id = int

  datatype Ring = Uncrypted | Crypted | Dead

  datatype Packet = Packet(ring: Ring, peer: Id, keypair: Id, nonce: nat)

  datatype Queue = Queue(items: seq<Id>, len: nat)

  /** A call of wg_peer_send_staged, or the receipt of one packet: the packets it has still to queue,
      the one it has put into the serial queue only, and whether it found the parallel queue full. */
  datatype Sender = Sender(peer: Id, pending: seq<Id>, between: Option<Id>, full: bool)

  datatype Tag = Tag(packet: Id, keypair: Id, nonce: nat)

  /** Where a packet is. */
  datatype Place = Pending(sender: Id) | Entering(sender: Id) | Queued | Working(worker: Id) | Finished | Leaving

  /** `place`, `freed` and the last three fields are history. */
  datatype State = State(
    packets: map<Id, Packet>, serial: map<Id, Queue>, parallel: Queue,
    senders: map<Id, Sender>, workers: map<Id, Id>, delivering: map<Id, Id>, next: map<Id, nat>,
    place: map<Id, Place>, freed: set<Id>,
    entered: map<Id, seq<Tag>>, left: map<Id, seq<Tag>>, outcome: map<Id, seq<bool>>)

  // ---- Steps ----------------------------------------------------------------------------

  datatype Step =
    | Begin(sender: Id, peer: Id)
    | Stage(sender: Id, keypair: Id, packet: Id)
    | Abort(sender: Id)
    | Enter(sender: Id)
    | Forward(sender: Id)
    | MarkDead(sender: Id)
    | End(sender: Id)
    | Take(worker: Id)
    | Finish(worker: Id, ok: bool)
    | Pull(peer: Id)
    | Release(peer: Id)

  function TagOf(s: State, p: Id): Tag
    requires p in s.packets
  {
    Tag(p, s.packets[p].keypair, s.packets[p].nonce)
  }

  predicate Distinct(ids: seq<Id>) { forall i, j :: 0 <= i < j < |ids| ==> ids[i] != ids[j] }

  function NextNonce(s: State, k: Id): nat { if k in s.next then s.next[k] else 0 }

  function Pop(q: Queue): Queue
    requires q.len > 0 && q.items != []
  {
    Queue(q.items[1..], q.len - 1)
  }

  function Push(q: Queue, p: Id): Queue { Queue(q.items + [p], q.len + 1) }

  function Free(s: State, p: Id): State {
    s.(packets := s.packets - {p}, place := s.place - {p}, freed := s.freed + {p})
  }

  function SetRing(s: State, p: Id, ring: Ring): State
    requires p in s.packets
  {
    s.(packets := s.packets[p := s.packets[p].(ring := ring)], place := s.place[p := Finished])
  }

  predicate CanBegin(s: State, t: Id, q: Id) {
    t !in s.senders && q in s.serial
  }

  predicate CanStage(s: State, t: Id, k: Id, p: Id) {
    t in s.senders && p !in s.packets && p !in s.freed && p !in s.place
  }

  predicate CanAbort(s: State, t: Id) {
    t in s.senders && s.senders[t].between.None?
  }

  predicate CanEnter(s: State, t: Id) {
    && t in s.senders && s.senders[t].between.None? && s.senders[t].pending != []
    && s.senders[t].pending[0] in s.packets && s.senders[t].peer in s.serial && s.senders[t].peer in s.entered
  }

  predicate CanForward(s: State, t: Id) {
    t in s.senders && s.senders[t].between.Some? && !s.senders[t].full
  }

  predicate CanMarkDead(s: State, t: Id) {
    t in s.senders && s.senders[t].between.Some? && s.senders[t].full && s.senders[t].between.value in s.packets
  }

  predicate CanEnd(s: State, t: Id) {
    t in s.senders && s.senders[t].between.None? && s.senders[t].pending == []
  }

  predicate CanTake(s: State, t: Id) {
    t !in s.workers && s.parallel.len > 0 && s.parallel.items != []
  }

  predicate CanFinish(s: State, t: Id) {
    t in s.workers && s.workers[t] in s.packets
  }

  predicate CanPull(s: State, q: Id) {
    && q in s.serial && q !in s.delivering && s.serial[q].len > 0 && s.serial[q].items != [] && q in s.left
    && s.serial[q].items[0] in s.packets && s.packets[s.serial[q].items[0]].ring != Uncrypted
  }

  predicate CanRelease(s: State, q: Id) {
    q in s.delivering && s.delivering[q] in s.packets && q in s.outcome
  }

  function DoBegin(s: State, t: Id, q: Id): State
    requires CanBegin(s, t, q)
  {
    s.(senders := s.senders[t := Sender(q, [], None, false)])
  }

  function DoStage(s: State, t: Id, k: Id, p: Id): State
    requires CanStage(s, t, k, p)
  {
    var c, n := s.senders[t], NextNonce(s, k);
    s.(packets := s.packets[p := Packet(Uncrypted, c.peer, k, n)], place := s.place[p := Pending(t)],
       next := s.next[k := n + 1], senders := s.senders[t := c.(pending := c.pending + [p])])
  }

  function DoAbort(s: State, t: Id): State
    requires CanAbort(s, t)
  {
    var gone := set p | p in s.senders[t].pending;
    s.(packets := s.packets - gone, place := s.place - gone, senders := s.senders - {t})
  }

  function DoEnter(s: State, t: Id): State
    requires CanEnter(s, t)
  {
    var c := s.senders[t];
    var p, q := c.pending[0], c.peer;
    if s.serial[q].len < MAX_QUEUED_PKT then
      s.(serial := s.serial[q := Push(s.serial[q], p)], place := s.place[p := Entering(t)],
         entered := s.entered[q := s.entered[q] + [TagOf(s, p)]],
         senders := s.senders[t := c.(pending := c.pending[1..], between := Some(p))])
    else
      Free(s, p).(senders := s.senders[t := c.(pending := c.pending[1..])])
  }

  function DoForward(s: State, t: Id): State
    requires CanForward(s, t)
  {
    var c := s.senders[t];
    if s.parallel.len < MAX_QUEUED_PKT then
      s.(parallel := Push(s.parallel, c.between.value), place := s.place[c.between.value := Queued],
         senders := s.senders[t := c.(between := None)])
    else
      s.(senders := s.senders[t := c.(full := true)])
  }

  function DoMarkDead(s: State, t: Id): State
    requires CanMarkDead(s, t)
  {
    var c := s.senders[t];
    SetRing(s, c.between.value, Dead).(senders := s.senders[t := c.(between := None, full := false)])
  }

  function DoEnd(s: State, t: Id): State
    requires CanEnd(s, t)
  {
    s.(senders := s.senders - {t})
  }

  function DoTake(s: State, t: Id): State
    requires CanTake(s, t)
  {
    var p := s.parallel.items[0];
    s.(parallel := Pop(s.parallel), workers := s.workers[t := p], place := s.place[p := Working(t)])
  }

  function DoFinish(s: State, t: Id, ok: bool): State
    requires CanFinish(s, t)
  {
    SetRing(s, s.workers[t], if ok then Crypted else Dead).(workers := s.workers - {t})
  }

  function DoPull(s: State, q: Id): State
    requires CanPull(s, q)
  {
    var p := s.serial[q].items[0];
    s.(serial := s.serial[q := Pop(s.serial[q])], delivering := s.delivering[q := p],
       place := s.place[p := Leaving], left := s.left[q := s.left[q] + [TagOf(s, p)]])
  }

  function DoRelease(s: State, q: Id): State
    requires CanRelease(s, q)
  {
    var p := s.delivering[q];
    Free(s, p).(delivering := s.delivering - {q},
                outcome := s.outcome[q := s.outcome[q] + [s.packets[p].ring == Crypted]])
  }

  predicate Enabled(s: State, step: Step) {
    match step
    case Begin(t, q) => CanBegin(s, t, q)
    case Stage(t, k, p) => CanStage(s, t, k, p)
    case Abort(t) => CanAbort(s, t)
    case Enter(t) => CanEnter(s, t)
    case Forward(t) => CanForward(s, t)
    case MarkDead(t) => CanMarkDead(s, t)
    case End(t) => CanEnd(s, t)
    case Take(t) => CanTake(s, t)
    case Finish(t, _) => CanFinish(s, t)
    case Pull(q) => CanPull(s, q)
    case Release(q) => CanRelease(s, q)
  }

  function Apply(s: State, step: Step): State
    requires Enabled(s, step)
  {
    match step
    case Begin(t, q) => DoBegin(s, t, q)
    case Stage(t, k, p) => DoStage(s, t, k, p)
    case Abort(t) => DoAbort(s, t)
    case Enter(t) => DoEnter(s, t)
    case Forward(t) => DoForward(s, t)
    case MarkDead(t) => DoMarkDead(s, t)
    case End(t) => DoEnd(s, t)
    case Take(t) => DoTake(s, t)
    case Finish(t, ok) => DoFinish(s, t, ok)
    case Pull(q) => DoPull(s, q)
    case Release(q) => DoRelease(s, q)
  }

  // ---- The invariant --------------------------------------------------------------------

  predicate InSerial(s: State, p: Id)
    requires p in s.packets
  {
    s.packets[p].peer in s.serial && p in s.serial[s.packets[p].peer].items
  }

  /** A packet is in exactly one place, and its state is settled once no thread works on it. */
  predicate PacketOk(s: State, p: Id) {
    && (p in s.packets <==> p in s.place)
    && (p in s.packets ==> p !in s.freed && match s.place[p]
         case Pending(t) => t in s.senders && p in s.senders[t].pending && s.packets[p].peer == s.senders[t].peer && s.packets[p].ring == Uncrypted
         case Entering(t) => t in s.senders && s.senders[t].between == Some(p) && InSerial(s, p) && s.packets[p].ring == Uncrypted
         case Queued => p in s.parallel.items && InSerial(s, p) && s.packets[p].ring == Uncrypted
         case Working(t) => t in s.workers && s.workers[t] == p && InSerial(s, p) && s.packets[p].ring == Uncrypted
         case Finished => InSerial(s, p) && s.packets[p].ring != Uncrypted
         case Leaving => s.packets[p].peer in s.delivering && s.delivering[s.packets[p].peer] == p && s.packets[p].ring != Uncrypted)
  }

  predicate At(s: State, p: Id, place: Place) { p in s.place && s.place[p] == place }

  predicate SenderOk(s: State, t: Id)
    requires t in s.senders
  {
    var c := s.senders[t];
    && Distinct(c.pending) && c.peer in s.serial
    && (forall p <- c.pending :: At(s, p, Pending(t)))
    && (c.between.Some? ==> At(s, c.between.value, Entering(t)))
    && (c.full ==> c.between.Some?)
  }

  predicate Sized(q: Queue) { Distinct(q.items) && q.len == |q.items| <= MAX_QUEUED_PKT }

  predicate ParallelOk(s: State) { Sized(s.parallel) && forall p <- s.parallel.items :: At(s, p, Queued) }

  predicate InTransit(s: State, p: Id) {
    p in s.place && (s.place[p].Entering? || s.place[p].Queued? || s.place[p].Working? || s.place[p].Finished?)
  }

  function Tags(s: State, items: seq<Id>): seq<Tag>
    requires forall p <- items :: p in s.packets
  {
    seq(|items|, i requires 0 <= i < |items| => TagOf(s, items[i]))
  }

  predicate DeliveryOk(s: State, q: Id)
    requires q in s.delivering && q in s.left
  {
    var p := s.delivering[q];
    && At(s, p, Leaving) && p in s.packets && s.packets[p].peer == q
    && s.left[q] != [] && s.left[q][|s.left[q]| - 1] == TagOf(s, p)
  }

  /** What has entered a serial queue is what has left it followed by what is in it. */
  predicate PeerOk(s: State, q: Id)
    requires q in s.serial
  {
    && q in s.entered && q in s.left && q in s.outcome
    && Sized(s.serial[q])
    && (forall p <- s.serial[q].items :: p in s.packets && s.packets[p].peer == q && InTransit(s, p))
    && s.entered[q] == s.left[q] + Tags(s, s.serial[q].items)
    && |s.outcome[q]| == |s.left[q]| - (if q in s.delivering then 1 else 0)
    && (q in s.delivering ==> DeliveryOk(s, q))
  }

  ghost predicate Inv(s: State) {
    && (forall p :: PacketOk(s, p))
    && (forall t <- s.senders :: SenderOk(s, t))
    && (forall t <- s.workers :: At(s, s.workers[t], Working(t)))
    && ParallelOk(s)
    && (forall q <- s.serial :: PeerOk(s, q))
    && (forall q <- s.delivering :: q in s.serial)
  }

  // ---- Preservation ---------------------------------------------------------------------

  ghost predicate SameBut<V(!new)>(a: map<Id, V>, b: map<Id, V>, ks: set<Id>) {
    forall j :: j !in ks ==> (j in a <==> j in b) && (j in a ==> a[j] == b[j])
  }

  /** A step concerns some packets of one peer, and at most the given senders and workers. */
  ghost predicate Within(s: State, s': State, ps: set<Id>, ts: set<Id>, ws: set<Id>, q: Id) {
    && SameBut(s.packets, s'.packets, ps) && SameBut(s.place, s'.place, ps) && SameBut(s.senders, s'.senders, ts)
    && SameBut(s.workers, s'.workers, ws) && SameBut(s.serial, s'.serial, {q}) && SameBut(s.delivering, s'.delivering, {q})
    && SameBut(s.entered, s'.entered, {q}) && SameBut(s.left, s'.left, {q}) && SameBut(s.outcome, s'.outcome, {q})
    && (forall j :: j !in ps ==> (j in s.freed <==> j in s'.freed))
  }

  /** Everywhere but at these packets the lists and hands hold what they held. */
  ghost predicate SameElsewhere(s: State, s': State, ps: set<Id>, ts: set<Id>, ws: set<Id>, q: Id) {
    && (q in s.serial <==> q in s'.serial)
    && (forall j :: j !in ps && q in s.serial && q in s'.serial ==> (j in s.serial[q].items <==> j in s'.serial[q].items))
    && (forall j :: j !in ps ==> (j in s.parallel.items <==> j in s'.parallel.items))
    && (forall t, j :: t in ts && j !in ps && t in s.senders && j in s.senders[t].pending
          ==> t in s'.senders && j in s'.senders[t].pending && s'.senders[t].peer == s.senders[t].peer)
    && (forall t, j :: t in ts && j !in ps && t in s.senders && s.senders[t].between == Some(j)
          ==> t in s'.senders && s'.senders[t].between == Some(j))
    && (forall t <- ws :: t in s.workers ==> s.workers[t] in ps)
    && (q in s.delivering && s.delivering[q] !in ps ==> q in s'.delivering && s'.delivering[q] == s.delivering[q])
  }

  /** The packets touched were nowhere else. */
  ghost predicate Owned(s: State, ps: set<Id>, ts: set<Id>, ws: set<Id>, q: Id) {
    forall p <- ps ::
      && (p in s.packets ==> s.packets[p].peer == q)
      && (p in s.place && s.place[p].Pending? ==> s.place[p].sender in ts)
      && (p in s.place && s.place[p].Entering? ==> s.place[p].sender in ts)
      && (p in s.place && s.place[p].Working? ==> s.place[p].worker in ws)
  }

  ghost predicate Local(s: State, s': State, ps: set<Id>, ts: set<Id>, ws: set<Id>, q: Id) {
    Within(s, s', ps, ts, ws, q) && SameElsewhere(s, s', ps, ts, ws, q) && Owned(s, ps, ts, ws, q)
  }

  lemma OtherPacket(s: State, s': State, ps: set<Id>, ts: set<Id>, ws: set<Id>, q: Id, j: Id)
    requires PacketOk(s, j) && j !in ps && Within(s, s', ps, ts, ws, q) && SameElsewhere(s, s', ps, ts, ws, q)
    ensures PacketOk(s', j)
  {
  }

  lemma OtherSender(s: State, s': State, ps: set<Id>, ts: set<Id>, ws: set<Id>, q: Id, t: Id)
    requires t in s.senders && SenderOk(s, t) && t !in ts && Within(s, s', ps, ts, ws, q) && Owned(s, ps, ts, ws, q)
    requires q in s.serial <==> q in s'.serial
    ensures t in s'.senders && SenderOk(s', t)
  {
  }

  lemma OtherPeer(s: State, s': State, ps: set<Id>, ts: set<Id>, ws: set<Id>, q: Id, r: Id)
    requires r in s.serial && PeerOk(s, r) && r != q && Within(s, s', ps, ts, ws, q) && Owned(s, ps, ts, ws, q)
    ensures r in s'.serial && PeerOk(s', r)
  {
  }

  /** The invariant is local: a step establishes it where it acts. */
  lemma StepKeeps(s: State, s': State, ps: set<Id>, ts: set<Id>, ws: set<Id>, q: Id)
    requires Inv(s) && Local(s, s', ps, ts, ws, q)
    requires forall p <- ps :: PacketOk(s', p)
    requires forall t <- ts :: t in s'.senders ==> SenderOk(s', t)
    requires forall t <- ws :: t in s'.workers ==> At(s', s'.workers[t], Working(t))
    requires ParallelOk(s') && q in s'.serial && PeerOk(s', q)
    ensures Inv(s')
  {
    hide PacketOk, SenderOk, ParallelOk, PeerOk;
    forall j ensures PacketOk(s', j) {
      if j !in ps {
        OtherPacket(s, s', ps, ts, ws, q, j);
      }
    }
    forall t | t in s'.senders ensures SenderOk(s', t) {
      if t !in ts {
        OtherSender(s, s', ps, ts, ws, q, t);
      }
    }
    forall r | r in s'.serial ensures PeerOk(s', r) {
      if r != q {
        OtherPeer(s, s', ps, ts, ws, q, r);
      }
    }
    hide SameElsewhere;
    forall t | t in s'.workers ensures At(s', s'.workers[t], Working(t)) {
      if t !in ws {
        assert At(s, s.workers[t], Working(t));
      }
    }
  }

  lemma PushMembers(q: Queue, p: Id)
    requires Sized(q) && p !in q.items && q.len < MAX_QUEUED_PKT
    ensures Sized(Push(q, p)) && forall j :: j in Push(q, p).items <==> j in q.items || j == p
  {
  }

  lemma PopMembers(q: Queue)
    requires Sized(q) && q.items != []
    ensures Sized(Pop(q)) && forall j :: j in Pop(q).items <==> j in q.items && j != q.items[0]
  {
    forall j | j in q.items && j != q.items[0] ensures j in Pop(q).items {
      var i :| 0 <= i < |q.items| && q.items[i] == j;
      assert Pop(q).items[i - 1] == j;
    }
  }

  lemma TagsPush(s: State, items: seq<Id>, p: Id)
    requires p in s.packets && forall j <- items :: j in s.packets
    ensures Tags(s, items + [p]) == Tags(s, items) + [TagOf(s, p)]
  {
  }

  lemma TagsPop(s: State, items: seq<Id>)
    requires items != [] && forall j <- items :: j in s.packets
    ensures Tags(s, items) == [TagOf(s, items[0])] + Tags(s, items[1..])
  {
  }

  lemma TagsSame(s: State, s': State, items: seq<Id>)
    requires forall p <- items :: p in s.packets && p in s'.packets && TagOf(s', p) == TagOf(s, p)
    ensures Tags(s', items) == Tags(s, items)
  {
  }

  lemma BeginKeeps(s: State, t: Id, q: Id)
    requires Inv(s) && CanBegin(s, t, q)
    ensures Inv(DoBegin(s, t, q))
  {
    var s' := DoBegin(s, t, q);
    assert PeerOk(s, q);
    hide Inv;
    TagsSame(s, s', s.serial[q].items);
    StepKeeps(s, s', {}, {t}, {}, q);
  }

  lemma StageLocal(s: State, t: Id, k: Id, p: Id)
    requires CanStage(s, t, k, p) && s.senders[t].peer in s.serial
    ensures Local(s, DoStage(s, t, k, p), {p}, {t}, {}, s.senders[t].peer)
  {
  }

  lemma StageKeeps(s: State, t: Id, k: Id, p: Id)
    requires Inv(s) && CanStage(s, t, k, p)
    ensures Inv(DoStage(s, t, k, p))
  {
    var s' := DoStage(s, t, k, p);
    var c := s.senders[t];
    assert SenderOk(s, t) && PacketOk(s, p) && PeerOk(s, c.peer);
    assert p !in s.parallel.items && ParallelOk(s');
    hide Inv, ParallelOk;
    TagsSame(s, s', s.serial[c.peer].items);
    assert p !in c.pending && p !in s.serial[c.peer].items;
    assert s'.senders[t].pending[|c.pending|] == p;
    assert PacketOk(s', p) && SenderOk(s', t) && PeerOk(s', c.peer);
    StageLocal(s, t, k, p);
    hide PacketOk, SenderOk, PeerOk, Local;
    StepKeeps(s, s', {p}, {t}, {}, c.peer);
  }

  lemma AbortLocal(s: State, t: Id)
    requires CanAbort(s, t) && s.senders[t].peer in s.serial
    requires forall p <- s.senders[t].pending :: At(s, p, Pending(t)) && (p in s.packets ==> s.packets[p].peer == s.senders[t].peer)
    ensures Local(s, DoAbort(s, t), set p | p in s.senders[t].pending, {t}, {}, s.senders[t].peer)
  {
  }

  lemma AbortKeeps(s: State, t: Id)
    requires Inv(s) && CanAbort(s, t)
    ensures Inv(DoAbort(s, t))
  {
    var s' := DoAbort(s, t);
    var c := s.senders[t];
    var gone := set p | p in c.pending;
    assert SenderOk(s, t) && PeerOk(s, c.peer) && ParallelOk(s);
    forall p | p in gone ensures p !in s.serial[c.peer].items && PacketOk(s', p) && (p in s.packets ==> s.packets[p].peer == c.peer) {
      assert PacketOk(s, p);
    }
    hide Inv, PacketOk;
    assert ParallelOk(s');
    hide ParallelOk;
    TagsSame(s, s', s.serial[c.peer].items);
    assert PeerOk(s', c.peer);
    AbortLocal(s, t);
    hide SenderOk, PeerOk, Local;
    StepKeeps(s, s', gone, {t}, {}, c.peer);
  }

  lemma EnterKeeps(s: State, t: Id)
    requires Inv(s) && CanEnter(s, t)
    ensures Inv(DoEnter(s, t))
  {
    if s.serial[s.senders[t].peer].len < MAX_QUEUED_PKT {
      EnterQueued(s, t);
    } else {
      EnterFull(s, t);
    }
  }

  lemma EnterQueuedLocal(s: State, t: Id)
    requires CanEnter(s, t) && At(s, s.senders[t].pending[0], Pending(t)) && Distinct(s.senders[t].pending)
    requires s.packets[s.senders[t].pending[0]].peer == s.senders[t].peer
    requires s.serial[s.senders[t].peer].len < MAX_QUEUED_PKT
    ensures Local(s, DoEnter(s, t), {s.senders[t].pending[0]}, {t}, {}, s.senders[t].peer)
  {
    RestOfPending(s.senders[t].pending);
    hide Distinct;
  }

  lemma EnterFullLocal(s: State, t: Id)
    requires CanEnter(s, t) && At(s, s.senders[t].pending[0], Pending(t)) && Distinct(s.senders[t].pending)
    requires s.packets[s.senders[t].pending[0]].peer == s.senders[t].peer
    requires s.serial[s.senders[t].peer].len >= MAX_QUEUED_PKT
    ensures Local(s, DoEnter(s, t), {s.senders[t].pending[0]}, {t}, {}, s.senders[t].peer)
  {
    RestOfPending(s.senders[t].pending);
    hide Distinct;
  }

  lemma EnterQueued(s: State, t: Id)
    requires Inv(s) && CanEnter(s, t) && s.serial[s.senders[t].peer].len < MAX_QUEUED_PKT
    ensures Inv(DoEnter(s, t))
  {
    var s' := DoEnter(s, t);
    var c := s.senders[t];
    var p, q := c.pending[0], c.peer;
    assert SenderOk(s, t) && PacketOk(s, p) && PeerOk(s, q) && ParallelOk(s);
    hide Inv;
    assert At(s, p, Pending(t)) && p !in s.serial[q].items;
    assert ParallelOk(s');
    EnterQueuedLocal(s, t);
    hide ParallelOk, Local;
    EnteringSender(s, t);
    hide SenderOk;
    PushMembers(s.serial[q], p);
    TagsPush(s, s.serial[q].items, p);
    TagsSame(s, s', s'.serial[q].items);
    assert PacketOk(s', p) && PeerOk(s', q);
    hide PacketOk, PeerOk;
    StepKeeps(s, s', {p}, {t}, {}, q);
  }

  lemma EnterShape(s: State, t: Id)
    requires CanEnter(s, t)
    ensures var c, s', p := s.senders[t], DoEnter(s, t), s.senders[t].pending[0];
      && c.peer in s'.serial && t in s'.senders
      && if s.serial[c.peer].len < MAX_QUEUED_PKT
         then s'.place == s.place[p := Entering(t)] && s'.senders[t] == c.(pending := c.pending[1..], between := Some(p))
         else s'.place == s.place - {p} && s'.senders[t] == c.(pending := c.pending[1..])
  {
    if s.serial[s.senders[t].peer].len < MAX_QUEUED_PKT {
    } else {
    }
  }

  lemma EnteringSender(s: State, t: Id)
    requires CanEnter(s, t) && SenderOk(s, t)
    ensures t in DoEnter(s, t).senders && SenderOk(DoEnter(s, t), t)
  {
    hide DoEnter;
    var c, s' := s.senders[t], DoEnter(s, t);
    EnterShape(s, t);
    RestOfPending(c.pending);
    hide Distinct;
    forall j | j in c.pending[1..] ensures At(s', j, Pending(t)) {
      assert At(s, j, Pending(t));
    }
  }

  lemma EnterFull(s: State, t: Id)
    requires Inv(s) && CanEnter(s, t) && s.serial[s.senders[t].peer].len >= MAX_QUEUED_PKT
    ensures Inv(DoEnter(s, t))
  {
    var s' := DoEnter(s, t);
    var c := s.senders[t];
    var p, q := c.pending[0], c.peer;
    assert SenderOk(s, t) && PacketOk(s, p) && PeerOk(s, q) && ParallelOk(s);
    hide Inv;
    assert At(s, p, Pending(t)) && p !in s.serial[q].items;
    assert ParallelOk(s');
    EnterFullLocal(s, t);
    hide ParallelOk, Local;
    EnteringSender(s, t);
    hide SenderOk;
    TagsSame(s, s', s.serial[q].items);
    assert PacketOk(s', p) && PeerOk(s', q);
    hide PacketOk, PeerOk;
    StepKeeps(s, s', {p}, {t}, {}, q);
  }

  lemma RestOfPending(pending: seq<Id>)
    requires pending != [] && Distinct(pending)
    ensures Distinct(pending[1..]) && forall j :: j in pending[1..] <==> j in pending && j != pending[0]
  {
    forall j | j in pending && j != pending[0] ensures j in pending[1..] {
      var i :| 0 <= i < |pending| && pending[i] == j;
      assert pending[1..][i - 1] == j;
    }
  }

  lemma ForwardKeeps(s: State, t: Id)
    requires Inv(s) && CanForward(s, t)
    ensures Inv(DoForward(s, t))
  {
    if s.parallel.len < MAX_QUEUED_PKT {
      ForwardQueued(s, t);
    } else {
      ForwardFull(s, t);
    }
  }

  lemma ForwardQueued(s: State, t: Id)
    requires Inv(s) && CanForward(s, t) && s.parallel.len < MAX_QUEUED_PKT
    ensures Inv(DoForward(s, t))
  {
    var p, s' := s.senders[t].between.value, DoForward(s, t);
    assert SenderOk(s, t) && PacketOk(s, p) && PeerOk(s, s.packets[p].peer);
    hide Inv;
    PushMembers(s.parallel, p);
    TagsSame(s, s', s.serial[s.packets[p].peer].items);
    StepKeeps(s, s', {p}, {t}, {}, s.packets[p].peer);
  }

  lemma ForwardFull(s: State, t: Id)
    requires Inv(s) && CanForward(s, t) && s.parallel.len >= MAX_QUEUED_PKT
    ensures Inv(DoForward(s, t))
  {
    var p, s' := s.senders[t].between.value, DoForward(s, t);
    assert SenderOk(s, t) && PacketOk(s, p) && PeerOk(s, s.packets[p].peer);
    hide Inv;
    TagsSame(s, s', s.serial[s.packets[p].peer].items);
    StepKeeps(s, s', {p}, {t}, {}, s.packets[p].peer);
  }

  lemma MarkDeadLocal(s: State, t: Id, p: Id)
    requires CanMarkDead(s, t) && s.senders[t].between == Some(p) && At(s, p, Entering(t))
    requires s.packets[p].peer in s.serial
    ensures Local(s, DoMarkDead(s, t), {p}, {t}, {}, s.packets[p].peer)
  {
  }

  lemma MarkDeadKeeps(s: State, t: Id)
    requires Inv(s) && CanMarkDead(s, t)
    ensures Inv(DoMarkDead(s, t))
  {
    var s' := DoMarkDead(s, t);
    var p := s.senders[t].between.value;
    var q := s.packets[p].peer;
    assert SenderOk(s, t) && PacketOk(s, p) && PeerOk(s, q);
    hide Inv;
    TagsSame(s, s', s.serial[q].items);
    assert PacketOk(s', p) && SenderOk(s', t) && PeerOk(s', q);
    MarkDeadLocal(s, t, p);
    hide PacketOk, SenderOk, PeerOk, Local;
    assert ParallelOk(s');
    StepKeeps(s, s', {p}, {t}, {}, q);
  }

  lemma EndKeeps(s: State, t: Id)
    requires Inv(s) && CanEnd(s, t)
    ensures Inv(DoEnd(s, t))
  {
    var s' := DoEnd(s, t);
    var q := s.senders[t].peer;
    assert SenderOk(s, t) && PeerOk(s, q);
    hide Inv;
    TagsSame(s, s', s.serial[q].items);
    StepKeeps(s, s', {}, {t}, {}, q);
  }

  lemma TakeKeeps(s: State, t: Id)
    requires Inv(s) && CanTake(s, t)
    ensures Inv(DoTake(s, t))
  {
    var s' := DoTake(s, t);
    var p := s.parallel.items[0];
    assert At(s, p, Queued);
    assert PacketOk(s, p) && PeerOk(s, s.packets[p].peer);
    hide Inv;
    PopMembers(s.parallel);
    TagsSame(s, s', s.serial[s.packets[p].peer].items);
    StepKeeps(s, s', {p}, {}, {t}, s.packets[p].peer);
  }

  lemma FinishKeeps(s: State, t: Id, ok: bool)
    requires Inv(s) && CanFinish(s, t)
    ensures Inv(DoFinish(s, t, ok))
  {
    var s' := DoFinish(s, t, ok);
    var p := s.workers[t];
    assert PacketOk(s, p) && PeerOk(s, s.packets[p].peer);
    hide Inv;
    TagsSame(s, s', s.serial[s.packets[p].peer].items);
    StepKeeps(s, s', {p}, {}, {t}, s.packets[p].peer);
  }

  lemma PullLocal(s: State, q: Id)
    requires CanPull(s, q) && s.packets[s.serial[q].items[0]].peer == q && At(s, s.serial[q].items[0], Finished)
    requires Sized(s.serial[q])
    ensures Local(s, DoPull(s, q), {s.serial[q].items[0]}, {}, {}, q)
  {
    PopMembers(s.serial[q]);
  }

  lemma PullKeeps(s: State, q: Id)
    requires Inv(s) && CanPull(s, q)
    ensures Inv(DoPull(s, q))
  {
    var s' := DoPull(s, q);
    var p := s.serial[q].items[0];
    assert PeerOk(s, q) && PacketOk(s, p) && ParallelOk(s);
    hide Inv;
    assert At(s, p, Finished);
    assert ParallelOk(s');
    PullLocal(s, q);
    hide ParallelOk, Local;
    PopMembers(s.serial[q]);
    TagsPop(s, s.serial[q].items);
    TagsSame(s, s', s'.serial[q].items);
    assert PacketOk(s', p) && PeerOk(s', q);
    hide PacketOk, PeerOk;
    StepKeeps(s, s', {p}, {}, {}, q);
  }

  lemma ReleaseKeeps(s: State, q: Id)
    requires Inv(s) && CanRelease(s, q)
    ensures Inv(DoRelease(s, q))
  {
    var s' := DoRelease(s, q);
    var p := s.delivering[q];
    assert PeerOk(s, q) && PacketOk(s, p);
    hide Inv;
    TagsSame(s, s', s'.serial[q].items);
    StepKeeps(s, s', {p}, {}, {}, q);
  }

  // ---- Whole runs -----------------------------------------------------------------------

  lemma ApplyKeeps(s: State, step: Step)
    requires Inv(s) && Enabled(s, step)
    ensures Inv(Apply(s, step))
  {
    hide Inv;
    match step
    case Begin(t, q) => BeginKeeps(s, t, q);
    case Stage(t, k, p) => StageKeeps(s, t, k, p);
    case Abort(t) => AbortKeeps(s, t);
    case Enter(t) => EnterKeeps(s, t);
    case Forward(t) => ForwardKeeps(s, t);
    case MarkDead(t) => MarkDeadKeeps(s, t);
    case End(t) => EndKeeps(s, t);
    case Take(t) => TakeKeeps(s, t);
    case Finish(t, ok) => FinishKeeps(s, t, ok);
    case Pull(q) => PullKeeps(s, q);
    case Release(q) => ReleaseKeeps(s, q);
  }

  /** Nothing is on its way yet. */
  predicate Initial(s: State) {
    && s.packets == map[] && s.place == map[] && s.senders == map[] && s.workers == map[] && s.delivering == map[]
    && s.parallel == Queue([], 0) && s.freed == {}
    && forall q <- s.serial :: s.serial[q] == Queue([], 0)
         && q in s.entered && q in s.left && q in s.outcome && s.entered[q] == [] && s.left[q] == [] && s.outcome[q] == []
  }

  predicate Legal(s: State, steps: seq<Step>)
    decreases |steps|
  {
    steps == [] || (Enabled(s, steps[0]) && Legal(Apply(s, steps[0]), steps[1..]))
  }

  function Exec(s: State, steps: seq<Step>): State
    requires Legal(s, steps)
    decreases |steps|
  {
    if steps == [] then s else Exec(Apply(s, steps[0]), steps[1..])
  }

  lemma InitialOk(s: State)
    requires Initial(s)
    ensures Inv(s)
  {
    forall q | q in s.serial ensures PeerOk(s, q) {
      assert Tags(s, []) == [];
    }
  }

  /** Whatever the interleaving, the invariant holds all along. */
  lemma {:induction false} RunKeeps(s: State, steps: seq<Step>)
    requires Inv(s) && Legal(s, steps)
    ensures Inv(Exec(s, steps))
    decreases |steps|
  {
    hide Inv, Apply, Enabled;
    if steps != [] {
      ApplyKeeps(s, steps[0]);
      RunKeeps(Apply(s, steps[0]), steps[1..]);
    }
  }

  // ---- What the invariant says ----------------------------------------------------------

  /** In every run packets leave in the order in which they entered, none is skipped and none leaves twice. */
  lemma InOrder(s: State, steps: seq<Step>, q: Id)
    requires Initial(s) && Legal(s, steps) && q in Exec(s, steps).serial
    ensures var e := Exec(s, steps);
      && q in e.entered && q in e.left && e.left[q] <= e.entered[q]
      && e.serial[q].len == |e.entered[q]| - |e.left[q]| <= MAX_QUEUED_PKT
      && e.parallel.len == |e.parallel.items| <= MAX_QUEUED_PKT
  {
    hide Legal, Exec, Initial;
    InitialOk(s);
    RunKeeps(s, steps);
    assert PeerOk(Exec(s, steps), q);
  }

  ghost predicate HeldBySender(s: State, t: Id, p: Id) { t in s.senders && s.senders[t].between == Some(p) }

  ghost predicate HeldByWorker(s: State, t: Id, p: Id) { t in s.workers && s.workers[t] == p }

  /** A packet that keeps its serial queue waiting is in the parallel queue or in exactly one hand. */
  lemma WaitingIsTracked(s: State, q: Id, p: Id)
    requires Inv(s) && q in s.serial && p in s.serial[q].items
    ensures p in s.packets
    ensures s.packets[p].ring == Uncrypted ==>
      || (p in s.parallel.items && (forall t :: !HeldBySender(s, t, p) && !HeldByWorker(s, t, p)))
      || (p !in s.parallel.items && (exists t :: HeldBySender(s, t, p) && forall u :: (HeldBySender(s, u, p) ==> u == t) && !HeldByWorker(s, u, p)))
      || (p !in s.parallel.items && (exists t :: HeldByWorker(s, t, p) && forall u :: (HeldByWorker(s, u, p) ==> u == t) && !HeldBySender(s, u, p)))
    ensures s.packets[p].ring != Uncrypted ==> p !in s.parallel.items && forall t :: !HeldBySender(s, t, p) && !HeldByWorker(s, t, p)
  {
    assert PeerOk(s, q) && PacketOk(s, p);
    forall t ensures HeldBySender(s, t, p) ==> s.place[p] == Entering(t) {
      assert HeldBySender(s, t, p) ==> SenderOk(s, t);
    }
    forall t ensures HeldByWorker(s, t, p) ==> s.place[p] == Working(t) {
      assert HeldByWorker(s, t, p) ==> At(s, s.workers[t], Working(t));
    }
    match s.place[p]
    case Entering(t) => assert HeldBySender(s, t, p);
    case Working(t) => assert HeldByWorker(s, t, p);
    case _ =>
  }

  ghost predicate Unreferenced(s: State, p: Id) {
    && p !in s.packets && p !in s.parallel.items
    && (forall q <- s.serial :: p !in s.serial[q].items)
    && (forall t <- s.senders :: p !in s.senders[t].pending && s.senders[t].between != Some(p))
    && (forall t <- s.workers :: s.workers[t] != p)
    && (forall q <- s.delivering :: s.delivering[q] != p)
  }

  /** Nothing refers to a packet that was freed. */
  lemma NoDanglingPacket(s: State, p: Id)
    requires Inv(s) && p in s.freed
    ensures Unreferenced(s, p)
  {
    assert PacketOk(s, p);
    forall q | q in s.serial ensures p !in s.serial[q].items { assert PeerOk(s, q); }
    forall t | t in s.senders ensures p !in s.senders[t].pending && s.senders[t].between != Some(p) { assert SenderOk(s, t); }
    forall q | q in s.delivering ensures s.delivering[q] != p { assert PeerOk(s, q); }
    forall t | t in s.workers ensures s.workers[t] != p { assert At(s, s.workers[t], Working(t)); }
  }

  // ---- Every packet is accounted for ----------------------------------------------------

  /** How often a packet is there or gone for good: never both. */
  function Known(s: State, p: Id): nat { (if p in s.packets then 1 else 0) + (if p in s.freed then 1 else 0) }

  /** This step allocates the packet. */
  function Stages(step: Step, p: Id): nat { if step.Stage? && step.packet == p then 1 else 0 }

  /** This step puts the packet back among those that wait for a session. */
  function Returns(s: State, step: Step, p: Id): nat {
    if step.Abort? && step.sender in s.senders && p in s.senders[step.sender].pending then 1 else 0
  }

  predicate SamePackets(s: State, s': State) { s'.packets.Keys == s.packets.Keys && s'.freed == s.freed }

  predicate SameDeparted(s: State, s': State) {
    s'.left == s.left && s'.outcome == s.outcome && s'.serial.Keys == s.serial.Keys && s.freed <= s'.freed
  }

  lemma BeginPasses(s: State, t: Id, q: Id)
    requires CanBegin(s, t, q)
    ensures SamePackets(s, DoBegin(s, t, q)) && SameDeparted(s, DoBegin(s, t, q))
  {
  }

  lemma ForwardPasses(s: State, t: Id)
    requires CanForward(s, t)
    ensures SamePackets(s, DoForward(s, t)) && SameDeparted(s, DoForward(s, t))
  {
    if s.parallel.len < MAX_QUEUED_PKT {
      assert DoForward(s, t).packets == s.packets && DoForward(s, t).serial == s.serial;
    } else {
      assert DoForward(s, t).packets == s.packets && DoForward(s, t).serial == s.serial;
    }
  }

  lemma MarkDeadPasses(s: State, t: Id)
    requires CanMarkDead(s, t)
    ensures SamePackets(s, DoMarkDead(s, t)) && SameDeparted(s, DoMarkDead(s, t))
  {
  }

  lemma EndPasses(s: State, t: Id)
    requires CanEnd(s, t)
    ensures SamePackets(s, DoEnd(s, t)) && SameDeparted(s, DoEnd(s, t))
  {
  }

  lemma TakePasses(s: State, t: Id)
    requires CanTake(s, t)
    ensures SamePackets(s, DoTake(s, t)) && SameDeparted(s, DoTake(s, t))
  {
  }

  lemma FinishPasses(s: State, t: Id, ok: bool)
    requires CanFinish(s, t)
    ensures SamePackets(s, DoFinish(s, t, ok)) && SameDeparted(s, DoFinish(s, t, ok))
  {
  }

  lemma PullPasses(s: State, q: Id)
    requires CanPull(s, q)
    ensures SamePackets(s, DoPull(s, q))
  {
  }

  lemma StageDeparts(s: State, t: Id, k: Id, p: Id)
    requires CanStage(s, t, k, p)
    ensures SameDeparted(s, DoStage(s, t, k, p))
  {
  }

  lemma AbortDeparts(s: State, t: Id)
    requires CanAbort(s, t)
    ensures SameDeparted(s, DoAbort(s, t))
  {
  }

  lemma EnterDeparts(s: State, t: Id)
    requires CanEnter(s, t)
    ensures SameDeparted(s, DoEnter(s, t))
  {
    if s.serial[s.senders[t].peer].len < MAX_QUEUED_PKT {
      assert DoEnter(s, t).serial.Keys == s.serial.Keys;
    } else {
      assert DoEnter(s, t).serial.Keys == s.serial.Keys;
    }
  }

  lemma StageAccounts(s: State, t: Id, k: Id, p: Id)
    requires CanStage(s, t, k, p)
    ensures DoStage(s, t, k, p).packets.Keys == s.packets.Keys + {p} && DoStage(s, t, k, p).freed == s.freed
  {
  }

  lemma AbortAccounts(s: State, t: Id)
    requires Inv(s) && CanAbort(s, t)
    ensures var gone := set p | p in s.senders[t].pending;
      gone <= s.packets.Keys && gone !! s.freed && DoAbort(s, t).packets.Keys == s.packets.Keys - gone && DoAbort(s, t).freed == s.freed
  {
    assert SenderOk(s, t);
    forall p | p in s.senders[t].pending ensures p in s.packets && p !in s.freed {
      assert PacketOk(s, p);
    }
  }

  lemma EnterAccounts(s: State, t: Id)
    requires Inv(s) && CanEnter(s, t)
    ensures var p, s' := s.senders[t].pending[0], DoEnter(s, t);
      && p !in s.freed
      && if s.serial[s.senders[t].peer].len < MAX_QUEUED_PKT then s'.packets == s.packets && s'.freed == s.freed
         else s'.packets.Keys == s.packets.Keys - {p} && s'.freed == s.freed + {p}
  {
    assert PacketOk(s, s.senders[t].pending[0]);
  }

  lemma ReleaseAccounts(s: State, q: Id)
    requires Inv(s) && CanRelease(s, q)
    ensures var p, s' := s.delivering[q], DoRelease(s, q);
      p !in s.freed && s'.packets.Keys == s.packets.Keys - {p} && s'.freed == s.freed + {p}
  {
    assert PacketOk(s, s.delivering[q]);
  }

  /** No step loses a packet, frees one twice or brings one back. */
  lemma StepAccounts(s: State, step: Step, p: Id)
    requires Inv(s) && Enabled(s, step)
    ensures Known(Apply(s, step), p) + Returns(s, step, p) == Known(s, p) + Stages(step, p)
    ensures p in s.freed ==> p in Apply(s, step).freed
  {
    hide Inv, DoBegin, DoStage, DoAbort, DoEnter, DoForward, DoMarkDead, DoEnd, DoTake, DoFinish, DoPull, DoRelease;
    match step
    case Begin(t, q) => BeginPasses(s, t, q);
    case Stage(t, k, j) => StageAccounts(s, t, k, j);
    case Abort(t) => AbortAccounts(s, t);
    case Enter(t) => EnterAccounts(s, t);
    case Forward(t) => ForwardPasses(s, t);
    case MarkDead(t) => MarkDeadPasses(s, t);
    case End(t) => EndPasses(s, t);
    case Take(t) => TakePasses(s, t);
    case Finish(t, ok) => FinishPasses(s, t, ok);
    case Pull(q) => PullPasses(s, q);
    case Release(q) => ReleaseAccounts(s, q);
  }

  function Staged(steps: seq<Step>, p: Id): nat {
    if steps == [] then 0 else Stages(steps[0], p) + Staged(steps[1..], p)
  }

  function Returned(s: State, steps: seq<Step>, p: Id): nat
    requires Legal(s, steps)
    decreases |steps|
  {
    if steps == [] then 0 else Returns(s, steps[0], p) + Returned(Apply(s, steps[0]), steps[1..], p)
  }

  lemma {:induction false} RunAccounts(s: State, steps: seq<Step>, p: Id)
    requires Inv(s) && Legal(s, steps)
    ensures Known(Exec(s, steps), p) + Returned(s, steps, p) == Known(s, p) + Staged(steps, p)
    ensures p in s.freed ==> p in Exec(s, steps).freed
    decreases |steps|
  {
    if steps != [] {
      ApplyKeeps(s, steps[0]);
      StepAccounts(s, steps[0], p);
      hide Inv, Apply, Enabled, Known, Stages, Returns;
      RunAccounts(Apply(s, steps[0]), steps[1..], p);
    }
  }

  /** What has left a serial queue is freed once its delivery is over, and what has entered and is not
      freed is still there. */
  ghost predicate Settled(s: State, q: Id)
    requires q in s.serial && PeerOk(s, q)
  {
    forall i :: 0 <= i < |s.entered[q]| ==>
      if i < |s.outcome[q]| then s.entered[q][i].packet in s.freed else s.entered[q][i].packet in s.packets
  }

  /** The packets of finished deliveries are freed. */
  ghost predicate OutcomesFreed(s: State) {
    forall q, i :: q in s.serial && q in s.outcome && q in s.left && 0 <= i < |s.outcome[q]| && i < |s.left[q]| ==> s.left[q][i].packet in s.freed
  }

  lemma FreesOutcomes(s: State, s': State)
    requires OutcomesFreed(s) && s.freed <= s'.freed && s'.serial.Keys == s.serial.Keys
    requires forall q <- s.serial :: q in s.outcome && q in s.left && q in s'.outcome && q in s'.left
    requires forall q <- s.serial :: |s.outcome[q]| <= |s.left[q]| <= |s'.left[q]| && s'.left[q][..|s.left[q]|] == s.left[q]
    requires forall q <- s.serial :: s'.outcome[q] == s.outcome[q]
    ensures OutcomesFreed(s')
  {
    forall q, i | q in s'.serial && 0 <= i < |s'.outcome[q]| && i < |s'.left[q]| ensures s'.left[q][i].packet in s'.freed {
      assert s'.left[q][i] == s.left[q][i];
    }
  }

  /** Only pulling and releasing touch what has left. */
  lemma StepDeparts(s: State, step: Step)
    requires Enabled(s, step) && !step.Release? && !step.Pull?
    ensures SameDeparted(s, Apply(s, step))
  {
    hide SameDeparted, DoBegin, DoStage, DoAbort, DoEnter, DoForward, DoMarkDead, DoEnd, DoTake, DoFinish;
    match step
    case Begin(t, q) => BeginPasses(s, t, q);
    case Stage(t, k, j) => StageDeparts(s, t, k, j);
    case Abort(t) => AbortDeparts(s, t);
    case Enter(t) => EnterDeparts(s, t);
    case Forward(t) => ForwardPasses(s, t);
    case MarkDead(t) => MarkDeadPasses(s, t);
    case End(t) => EndPasses(s, t);
    case Take(t) => TakePasses(s, t);
    case Finish(t, ok) => FinishPasses(s, t, ok);
  }

  lemma HistoryThere(s: State, q: Id)
    requires Inv(s) && q in s.serial
    ensures q in s.outcome && q in s.left && |s.outcome[q]| == |s.left[q]| - (if q in s.delivering then 1 else 0)
    ensures q in s.delivering ==> s.left[q][|s.left[q]| - 1].packet == s.delivering[q]
  {
    assert PeerOk(s, q);
  }

  lemma StepFreesOutcomes(s: State, step: Step)
    requires Inv(s) && Enabled(s, step) && OutcomesFreed(s)
    ensures OutcomesFreed(Apply(s, step))
  {
    forall q | q in s.serial
      ensures q in s.outcome && q in s.left && |s.outcome[q]| <= |s.left[q]| && (q in s.delivering ==> s.left[q] != [])
    {
      HistoryThere(s, q);
    }
    if step.Release? {
      ReleaseFrees(s, step.peer);
    } else if step.Pull? {
      hide Inv, OutcomesFreed;
      assert DoPull(s, step.peer).serial.Keys == s.serial.Keys;
      FreesOutcomes(s, DoPull(s, step.peer));
    } else {
      hide Inv, OutcomesFreed;
      StepDeparts(s, step);
      hide Apply;
      FreesOutcomes(s, Apply(s, step));
    }
  }

  lemma ReleaseFrees(s: State, q: Id)
    requires Inv(s) && CanRelease(s, q) && OutcomesFreed(s)
    ensures OutcomesFreed(DoRelease(s, q))
  {
    assert q in s.serial;
    HistoryThere(s, q);
    hide Inv;
  }

  lemma {:induction false} RunFreesOutcomes(s: State, steps: seq<Step>)
    requires Inv(s) && Legal(s, steps) && OutcomesFreed(s)
    ensures Inv(Exec(s, steps)) && OutcomesFreed(Exec(s, steps))
    decreases |steps|
  {
    if steps != [] {
      ApplyKeeps(s, steps[0]);
      StepFreesOutcomes(s, steps[0]);
      hide Inv, Apply, Enabled, OutcomesFreed;
      RunFreesOutcomes(Apply(s, steps[0]), steps[1..]);
    }
  }

  /** Over every run from the start: a packet that was staged, and did not go back, is still there or
      was freed exactly once; of those that entered a queue, exactly the delivered ones are freed. */
  lemma FreedExactlyOnce(s: State, steps: seq<Step>)
    requires Initial(s) && Legal(s, steps)
    ensures var e := Exec(s, steps);
      && (forall p :: Staged(steps, p) == Returned(s, steps, p) + Known(e, p) && Known(e, p) <= 1)
      && (forall q <- e.serial :: PeerOk(e, q) && Settled(e, q))
  {
    var e := Exec(s, steps);
    InitialOk(s);
    RunFreesOutcomes(s, steps);
    forall p ensures Staged(steps, p) == Returned(s, steps, p) + Known(e, p) && Known(e, p) <= 1 {
      RunAccounts(s, steps, p);
      assert PacketOk(e, p);
    }
    forall q | q in e.serial ensures PeerOk(e, q) && Settled(e, q) {
      SettledNow(e, q);
    }
  }

  lemma SettledNow(s: State, q: Id)
    requires Inv(s) && OutcomesFreed(s) && q in s.serial
    ensures PeerOk(s, q) && Settled(s, q)
  {
    assert PeerOk(s, q);
    if q in s.delivering {
      assert PacketOk(s, s.delivering[q]);
    }
    hide Inv;
    forall i | 0 <= i < |s.entered[q]|
      ensures if i < |s.outcome[q]| then s.entered[q][i].packet in s.freed else s.entered[q][i].packet in s.packets
    {
      if i < |s.left[q]| {
        assert s.entered[q][i] == s.left[q][i];
      } else {
        assert s.entered[q][i] == Tags(s, s.serial[q].items)[i - |s.left[q]|];
      }
    }
  }

  // ---- What is sent was encrypted -------------------------------------------------------

  /** The packet that this step encrypts. */
  function Encrypts(s: State, step: Step): set<Id> {
    if step.Finish? && step.ok && step.worker in s.workers then {s.workers[step.worker]} else {}
  }

  /** Which packets are encrypted, and which of those that left were found so, given those that ever were. */
  ghost predicate Marked(s: State, done: set<Id>) {
    && (forall p <- s.packets :: s.packets[p].ring == Crypted <==> p in done)
    && (forall p <- done :: p in s.packets || p in s.freed)
    && (forall q, i :: q in s.serial && q in s.outcome && q in s.left && 0 <= i < |s.outcome[q]| && i < |s.left[q]| ==>
          (s.outcome[q][i] <==> s.left[q][i].packet in done))
  }

  /** Nothing is delivered, and no packet that stays changes its mark. */
  lemma MarksKept(s: State, s': State, done: set<Id>)
    requires Marked(s, done) && s'.serial.Keys == s.serial.Keys && s'.outcome == s.outcome
    requires forall p <- s'.packets ::
      if p in s.packets then s'.packets[p].ring == s.packets[p].ring else p !in done && s'.packets[p].ring == Uncrypted
    requires forall p <- done :: p in s.packets ==> p in s'.packets || p in s'.freed
    requires s.freed <= s'.freed
    requires forall q <- s.serial :: q in s.outcome && q in s.left && q in s'.left && |s.outcome[q]| <= |s.left[q]|
    requires forall q <- s.serial :: s.left[q] <= s'.left[q]
    ensures Marked(s', done)
  {
    forall q, i | q in s'.serial && q in s'.outcome && q in s'.left && 0 <= i < |s'.outcome[q]| && i < |s'.left[q]|
      ensures s'.outcome[q][i] <==> s'.left[q][i].packet in done
    {
      assert s'.left[q][i] == s.left[q][i];
    }
  }

  /** A packet that still waited gets its mark. */
  lemma MarkGiven(s: State, s': State, done: set<Id>, p: Id, ok: bool)
    requires Marked(s, done) && p in s.packets && s.packets[p].ring == Uncrypted && OutcomesFreed(s)
    requires s'.packets == s.packets[p := s.packets[p].(ring := if ok then Crypted else Dead)] && p !in s.freed
    requires s'.freed == s.freed && s'.serial == s.serial && s'.outcome == s.outcome && s'.left == s.left
    ensures Marked(s', if ok then done + {p} else done)
  {
  }

  lemma ReleaseMarks(s: State, q: Id, done: set<Id>)
    requires Inv(s) && CanRelease(s, q) && Marked(s, done)
    ensures Marked(DoRelease(s, q), done)
  {
    var s' := DoRelease(s, q);
    assert q in s.serial;
    HistoryThere(s, q);
    hide Inv;
  }

  lemma PendingPlain(s: State, t: Id, p: Id)
    requires Inv(s) && t in s.senders && (p in s.senders[t].pending || s.senders[t].between == Some(p))
    ensures p in s.packets && s.packets[p].ring == Uncrypted && p !in s.freed
  {
    assert SenderOk(s, t) && PacketOk(s, p);
  }

  lemma WorkedPlain(s: State, t: Id)
    requires Inv(s) && t in s.workers
    ensures var p := s.workers[t]; p in s.packets && s.packets[p].ring == Uncrypted && p !in s.freed
  {
    assert At(s, s.workers[t], Working(t)) && PacketOk(s, s.workers[t]);
  }

  lemma StageMarks(s: State, t: Id, k: Id, p: Id, done: set<Id>)
    requires Inv(s) && CanStage(s, t, k, p) && Marked(s, done)
    ensures Marked(DoStage(s, t, k, p), done)
  {
    HistoriesThere(s);
    hide Inv, Marked;
    assert p !in done by { NotThere(s, done, p); }
    MarksKept(s, DoStage(s, t, k, p), done);
  }

  lemma NotThere(s: State, done: set<Id>, p: Id)
    requires Marked(s, done) && p !in s.packets && p !in s.freed
    ensures p !in done
  {
  }

  lemma HistoriesThere(s: State)
    requires Inv(s)
    ensures forall q <- s.serial :: q in s.outcome && q in s.left && |s.outcome[q]| <= |s.left[q]|
  {
    forall q | q in s.serial ensures q in s.outcome && q in s.left && |s.outcome[q]| <= |s.left[q]| {
      HistoryThere(s, q);
    }
  }

  lemma AbortMarks(s: State, t: Id, done: set<Id>)
    requires Inv(s) && CanAbort(s, t) && Marked(s, done)
    ensures Marked(DoAbort(s, t), done)
  {
    HistoriesThere(s);
    forall p | p in s.senders[t].pending ensures p !in done {
      PendingPlain(s, t, p);
    }
    hide Inv;
    MarksKept(s, DoAbort(s, t), done);
  }

  lemma EnterMarks(s: State, t: Id, done: set<Id>)
    requires Inv(s) && CanEnter(s, t) && Marked(s, done)
    ensures Marked(DoEnter(s, t), done)
  {
    HistoriesThere(s);
    hide Inv, Marked;
    if s.serial[s.senders[t].peer].len < MAX_QUEUED_PKT {
      assert DoEnter(s, t).serial.Keys == s.serial.Keys;
      MarksKept(s, DoEnter(s, t), done);
    } else {
      MarksKept(s, DoEnter(s, t), done);
    }
  }

  lemma PullMarks(s: State, q: Id, done: set<Id>)
    requires Inv(s) && CanPull(s, q) && Marked(s, done)
    ensures Marked(DoPull(s, q), done)
  {
    HistoriesThere(s);
    hide Inv, Marked;
    assert DoPull(s, q).serial.Keys == s.serial.Keys;
    MarksKept(s, DoPull(s, q), done);
  }

  lemma StepMarks(s: State, step: Step, done: set<Id>)
    requires Inv(s) && Enabled(s, step) && OutcomesFreed(s) && Marked(s, done)
    ensures Marked(Apply(s, step), done + Encrypts(s, step))
  {
    assert done + {} == done;
    assert !step.Finish? ==> Encrypts(s, step) == {};
    hide Inv, Marked, OutcomesFreed, Encrypts, DoBegin, DoStage, DoAbort, DoEnter, DoForward, DoMarkDead, DoEnd;
    hide DoTake, DoFinish, DoPull, DoRelease;
    match step
    case Begin(t, q) => BeginMarks(s, t, q, done);
    case Stage(t, k, p) => StageMarks(s, t, k, p, done);
    case Abort(t) => AbortMarks(s, t, done);
    case Enter(t) => EnterMarks(s, t, done);
    case Forward(t) => ForwardMarks(s, t, done);
    case MarkDead(t) => MarkDeadMarks(s, t, done);
    case End(t) => EndMarks(s, t, done);
    case Take(t) => TakeMarks(s, t, done);
    case Finish(t, ok) => FinishMarks(s, t, ok, done);
    case Pull(q) => PullMarks(s, q, done);
    case Release(q) => ReleaseMarks(s, q, done);
  }

  lemma BeginMarks(s: State, t: Id, q: Id, done: set<Id>)
    requires Inv(s) && CanBegin(s, t, q) && Marked(s, done)
    ensures Marked(DoBegin(s, t, q), done)
  {
    HistoriesThere(s);
    hide Inv, Marked;
    MarksKept(s, DoBegin(s, t, q), done);
  }

  lemma EndMarks(s: State, t: Id, done: set<Id>)
    requires Inv(s) && CanEnd(s, t) && Marked(s, done)
    ensures Marked(DoEnd(s, t), done)
  {
    HistoriesThere(s);
    hide Inv, Marked;
    MarksKept(s, DoEnd(s, t), done);
  }

  lemma TakeMarks(s: State, t: Id, done: set<Id>)
    requires Inv(s) && CanTake(s, t) && Marked(s, done)
    ensures Marked(DoTake(s, t), done)
  {
    HistoriesThere(s);
    hide Inv, Marked;
    MarksKept(s, DoTake(s, t), done);
  }

  lemma ForwardMarks(s: State, t: Id, done: set<Id>)
    requires Inv(s) && CanForward(s, t) && Marked(s, done)
    ensures Marked(DoForward(s, t), done)
  {
    HistoriesThere(s);
    hide Inv, Marked;
    if s.parallel.len < MAX_QUEUED_PKT {
      MarksKept(s, DoForward(s, t), done);
    } else {
      MarksKept(s, DoForward(s, t), done);
    }
  }

  lemma MarkDeadMarks(s: State, t: Id, done: set<Id>)
    requires Inv(s) && CanMarkDead(s, t) && OutcomesFreed(s) && Marked(s, done)
    ensures Marked(DoMarkDead(s, t), done)
  {
    var p := s.senders[t].between.value;
    PendingPlain(s, t, p);
    hide Inv, Marked, OutcomesFreed;
    MarkGiven(s, DoMarkDead(s, t), done, p, false);
  }

  lemma FinishMarks(s: State, t: Id, ok: bool, done: set<Id>)
    requires Inv(s) && CanFinish(s, t) && OutcomesFreed(s) && Marked(s, done)
    ensures Marked(DoFinish(s, t, ok), done + Encrypts(s, Finish(t, ok)))
  {
    WorkedPlain(s, t);
    hide Inv, Marked, OutcomesFreed;
    assert done + {} == done;
    MarkGiven(s, DoFinish(s, t, ok), done, s.workers[t], ok);
  }

  /** Step n of the run is the successful end of the encryption of p. */
  ghost predicate EncryptedAt(s: State, steps: seq<Step>, n: nat, p: Id)
    requires Legal(s, steps)
    decreases |steps|
  {
    && n < |steps|
    && if n == 0 then p in Encrypts(s, steps[0]) else EncryptedAt(Apply(s, steps[0]), steps[1..], n - 1, p)
  }

  lemma {:induction false} EncryptedAtIs(s: State, steps: seq<Step>, n: nat, p: Id)
    requires Legal(s, steps) && n < |steps|
    ensures Legal(s, steps[..n])
    ensures EncryptedAt(s, steps, n, p) <==> p in Encrypts(Exec(s, steps[..n]), steps[n])
    decreases n
  {
    hide Enabled, Apply;
    if n > 0 {
      EncryptedAtIs(Apply(s, steps[0]), steps[1..], n - 1, p);
      assert steps[..n][1..] == steps[1..][..n - 1];
    }
  }

  lemma {:induction false} RunMarks(s: State, steps: seq<Step>, done: set<Id>) returns (all: set<Id>)
    requires Inv(s) && Legal(s, steps) && OutcomesFreed(s) && Marked(s, done)
    ensures Marked(Exec(s, steps), all)
    ensures forall p :: p in all <==> p in done || EverEncrypted(s, steps, p)
    decreases |steps|
  {
    if steps == [] {
      all := done;
    } else {
      var s' := Apply(s, steps[0]);
      ApplyKeeps(s, steps[0]);
      StepFreesOutcomes(s, steps[0]);
      StepMarks(s, steps[0], done);
      hide Inv, Apply, Enabled, OutcomesFreed, Marked, Encrypts, EverEncrypted;
      all := RunMarks(s', steps[1..], done + Encrypts(s, steps[0]));
      forall p ensures p in all <==> p in done || EverEncrypted(s, steps, p) {
        Shifted(s, steps, p);
      }
    }
  }

  ghost predicate EverEncrypted(s: State, steps: seq<Step>, p: Id)
    requires Legal(s, steps)
  {
    exists n: nat :: EncryptedAt(s, steps, n, p)
  }

  lemma Shifted(s: State, steps: seq<Step>, p: Id)
    requires Legal(s, steps) && steps != []
    ensures EverEncrypted(s, steps, p) <==>
      p in Encrypts(s, steps[0]) || EverEncrypted(Apply(s, steps[0]), steps[1..], p)
  {
    hide Apply, Enabled, Encrypts;
    var s' := Apply(s, steps[0]);
    if EverEncrypted(s, steps, p) {
      var n: nat :| EncryptedAt(s, steps, n, p);
      if n > 0 {
        assert EncryptedAt(s', steps[1..], n - 1, p);
      }
    }
    if p in Encrypts(s, steps[0]) {
      assert EncryptedAt(s, steps, 0, p);
    }
    if EverEncrypted(s', steps[1..], p) {
      var n: nat :| EncryptedAt(s', steps[1..], n, p);
      var m: nat := n + 1;
      assert m - 1 == n && EncryptedAt(s, steps, m, p);
    }
  }

  /** Step n of the run ends the encryption of p, and it has succeeded. */
  ghost predicate Succeeds(s: State, steps: seq<Step>, n: nat, p: Id)
    requires Legal(s, steps)
  {
    && n < |steps| && Legal(s, steps[..n])
    && var e := Exec(s, steps[..n]);
      steps[n].Finish? && steps[n].ok && steps[n].worker in e.workers && e.workers[steps[n].worker] == p
  }

  lemma SucceedsIs(s: State, steps: seq<Step>, n: nat, p: Id)
    requires Legal(s, steps)
    ensures Succeeds(s, steps, n, p) <==> EncryptedAt(s, steps, n, p)
  {
    if n < |steps| {
      EncryptedAtIs(s, steps, n, p);
    }
    hide Exec, Legal;
  }

  /** Over every run: of the packets whose delivery is over, those count as sent that some worker has encrypted. */
  lemma SentIffEncrypted(s: State, steps: seq<Step>, q: Id, i: nat)
    requires Initial(s) && Legal(s, steps)
    requires var e := Exec(s, steps); q in e.serial && q in e.outcome && i < |e.outcome[q]|
    ensures var e := Exec(s, steps);
      && q in e.left && i < |e.left[q]|
      && (e.outcome[q][i] <==> exists n: nat :: Succeeds(s, steps, n, e.left[q][i].packet))
  {
    InitialOk(s);
    assert OutcomesFreed(s) && Marked(s, {});
    hide Inv, Legal, Exec, EncryptedAt, Succeeds, Initial, OutcomesFreed;
    RunKeeps(s, steps);
    HistoryThere(Exec(s, steps), q);
    var p := Exec(s, steps).left[q][i].packet;
    forall n: nat ensures Succeeds(s, steps, n, p) <==> EncryptedAt(s, steps, n, p) {
      SucceedsIs(s, steps, n, p);
    }
    var all := RunMarks(s, steps, {});
  }

  // ---- Nonces ---------------------------------------------------------------------------

  /** Per keypair, the nonces rise. */
  ghost predicate Rising(tags: seq<Tag>) {
    forall i, j :: 0 <= i < j < |tags| && tags[i].keypair == tags[j].keypair ==> tags[i].nonce < tags[j].nonce
  }

  ghost predicate Below(s: State, tags: seq<Tag>) {
    forall i :: 0 <= i < |tags| ==> tags[i].nonce < NextNonce(s, tags[i].keypair)
  }

  /** The nonces that peer q has got, including those a sender has not queued yet. */
  function Line(s: State, t: Id): seq<Tag>
    requires t in s.senders && s.senders[t].peer in s.entered && forall p <- s.senders[t].pending :: p in s.packets
  {
    s.entered[s.senders[t].peer] + Tags(s, s.senders[t].pending)
  }

  predicate LineReady(s: State, t: Id)
    requires t in s.senders
  {
    s.senders[t].peer in s.entered && forall p <- s.senders[t].pending :: p in s.packets
  }

  /** At most one sender per peer, and its packets come after those already queued. */
  ghost predicate Ordered(s: State) {
    && (forall q <- s.serial :: q in s.entered && Rising(s.entered[q]) && Below(s, s.entered[q]))
    && (forall t <- s.senders :: LineReady(s, t) && Rising(Line(s, t)) && Below(s, Line(s, t)))
    && (forall t, u :: t in s.senders && u in s.senders && s.senders[t].peer == s.senders[u].peer ==> t == u)
  }

  /** Calls that send to one peer do not overlap. */
  predicate Disciplined(s: State, step: Step) {
    step.Begin? ==> forall t <- s.senders :: s.senders[t].peer != step.peer
  }

  lemma SenderReady(s: State, t: Id)
    requires Inv(s) && t in s.senders
    ensures LineReady(s, t) && s.senders[t].peer in s.serial
  {
    assert SenderOk(s, t) && PeerOk(s, s.senders[t].peer);
    forall p | p in s.senders[t].pending ensures p in s.packets { assert PacketOk(s, p); }
  }

  /** A step that leaves a sender's line alone. */
  lemma LineStays(s: State, s': State, t: Id)
    requires t in s.senders && t in s'.senders && LineReady(s, t) && LineReady(s', t)
    requires s'.senders[t].peer == s.senders[t].peer && s'.senders[t].pending == s.senders[t].pending
    requires s'.entered[s.senders[t].peer] == s.entered[s.senders[t].peer]
    requires forall p <- s.senders[t].pending :: TagOf(s', p) == TagOf(s, p)
    requires Rising(Line(s, t)) && Below(s, Line(s, t)) && forall k :: NextNonce(s, k) <= NextNonce(s', k)
    ensures Rising(Line(s', t)) && Below(s', Line(s', t))
  {
    hide NextNonce;
    assert Line(s', t) == Line(s, t);
  }

  lemma RisingPart(tags: seq<Tag>, n: nat)
    requires n <= |tags| && Rising(tags)
    ensures Rising(tags[..n])
  {
  }

  lemma RisingMore(tags: seq<Tag>, tag: Tag)
    requires Rising(tags) && forall i :: 0 <= i < |tags| && tags[i].keypair == tag.keypair ==> tags[i].nonce < tag.nonce
    ensures Rising(tags + [tag])
  {
  }

  lemma StageLines(s: State, t: Id, k: Id, p: Id, u: Id)
    requires Inv(s) && Ordered(s) && CanStage(s, t, k, p) && Inv(DoStage(s, t, k, p)) && u in s.senders
    ensures var s' := DoStage(s, t, k, p);
      u in s'.senders && LineReady(s', u) && Rising(Line(s', u)) && Below(s', Line(s', u))
  {
    hide Inv;
    var s' := DoStage(s, t, k, p);
    SenderReady(s, u);
    SenderReady(s', u);
    if u == t {
      hide Rising;
      TagsPush(s', s.senders[t].pending, p);
      TagsSame(s, s', s.senders[t].pending);
      assert Line(s', t) == Line(s, t) + [TagOf(s', p)];
      RisingMore(Line(s, t), TagOf(s', p));
    } else {
      hide Rising, Line, Below;
      LineStays(s, s', u);
    }
  }

  lemma StageOrders(s: State, t: Id, k: Id, p: Id)
    requires Inv(s) && Ordered(s) && CanStage(s, t, k, p)
    ensures Ordered(DoStage(s, t, k, p))
  {
    hide Inv, Line, Rising;
    StageKeeps(s, t, k, p);
    var s' := DoStage(s, t, k, p);
    forall u | u in s'.senders ensures LineReady(s', u) && Rising(Line(s', u)) && Below(s', Line(s', u)) {
      StageLines(s, t, k, p, u);
    }
  }

  /** Entering moves the head of the sender's line from its own list to the serial queue. */
  lemma LineEntered(s: State, t: Id)
    requires Inv(s) && CanEnter(s, t) && Inv(DoEnter(s, t))
    requires s.serial[s.senders[t].peer].len < MAX_QUEUED_PKT
    ensures LineReady(s, t) && LineReady(DoEnter(s, t), t)
    ensures var e, s' := |s.entered[s.senders[t].peer]|, DoEnter(s, t);
      e < |Line(s, t)| && Line(s', t) == Line(s, t) && s'.entered[s.senders[t].peer] == Line(s, t)[..e + 1]
  {
    hide Inv;
    var s' := DoEnter(s, t);
    var c := s.senders[t];
    SenderReady(s, t);
    SenderReady(s', t);
    TagsPop(s, c.pending);
    TagsSame(s, s', c.pending[1..]);
  }

  /** Or drops it. */
  lemma LineShortened(s: State, t: Id)
    requires Inv(s) && CanEnter(s, t) && Inv(DoEnter(s, t))
    requires s.serial[s.senders[t].peer].len >= MAX_QUEUED_PKT
    ensures LineReady(s, t) && LineReady(DoEnter(s, t), t)
    ensures var e, s' := |s.entered[s.senders[t].peer]|, DoEnter(s, t);
      e < |Line(s, t)| && Line(s', t) == Line(s, t)[..e] + Line(s, t)[e + 1..] && s'.entered == s.entered
  {
    hide Inv;
    var s' := DoEnter(s, t);
    var c := s.senders[t];
    SenderReady(s, t);
    SenderReady(s', t);
    TagsPop(s, c.pending);
    TagsSame(s, s', c.pending[1..]);
  }

  lemma EnterOwnLine(s: State, t: Id)
    requires Inv(s) && Ordered(s) && CanEnter(s, t) && Inv(DoEnter(s, t))
    ensures var s' := DoEnter(s, t);
      t in s'.senders && LineReady(s', t) && Rising(Line(s', t)) && Below(s', Line(s', t))
  {
    hide Inv, Rising, Line;
    if s.serial[s.senders[t].peer].len < MAX_QUEUED_PKT {
      LineEntered(s, t);
    } else {
      LineShortened(s, t);
      RisingWithout(Line(s, t), |s.entered[s.senders[t].peer]|);
    }
  }

  lemma EnterOtherLine(s: State, t: Id, u: Id)
    requires Inv(s) && Ordered(s) && CanEnter(s, t) && Inv(DoEnter(s, t)) && u in s.senders && u != t
    ensures var s' := DoEnter(s, t);
      u in s'.senders && LineReady(s', u) && Rising(Line(s', u)) && Below(s', Line(s', u))
  {
    hide Inv, Rising, Line, Below;
    SenderReady(s, u);
    if s.serial[s.senders[t].peer].len < MAX_QUEUED_PKT {
      SenderReady(DoEnter(s, t), u);
      LineStays(s, DoEnter(s, t), u);
    } else {
      SenderReady(DoEnter(s, t), u);
      LineStays(s, DoEnter(s, t), u);
    }
  }

  lemma EnterSenders(s: State, t: Id)
    requires CanEnter(s, t)
    ensures var s' := DoEnter(s, t); s'.senders.Keys == s.senders.Keys && forall u <- s.senders :: s'.senders[u].peer == s.senders[u].peer
  {
    if s.serial[s.senders[t].peer].len < MAX_QUEUED_PKT {
      assert DoEnter(s, t).senders.Keys == s.senders.Keys;
    } else {
      assert DoEnter(s, t).senders.Keys == s.senders.Keys;
    }
  }

  lemma EnterSerial(s: State, t: Id)
    requires Inv(s) && Ordered(s) && CanEnter(s, t) && Inv(DoEnter(s, t))
    ensures var s' := DoEnter(s, t); forall q <- s'.serial :: q in s'.entered && Rising(s'.entered[q]) && Below(s', s'.entered[q])
  {
    hide Inv, Line, Rising;
    var q := s.senders[t].peer;
    if s.serial[q].len < MAX_QUEUED_PKT {
      LineEntered(s, t);
      RisingPart(Line(s, t), |s.entered[q]| + 1);
    }
  }

  lemma EnterOrders(s: State, t: Id)
    requires Inv(s) && Ordered(s) && CanEnter(s, t)
    ensures Ordered(DoEnter(s, t))
  {
    hide Inv, Line, Rising, Below, DoEnter;
    EnterKeeps(s, t);
    EnterSerial(s, t);
    EnterSenders(s, t);
    var s' := DoEnter(s, t);
    forall u | u in s'.senders ensures LineReady(s', u) && Rising(Line(s', u)) && Below(s', Line(s', u)) {
      if u == t {
        EnterOwnLine(s, t);
      } else {
        EnterOtherLine(s, t, u);
      }
    }
  }

  lemma RisingWithout(tags: seq<Tag>, k: nat)
    requires k < |tags| && Rising(tags)
    ensures Rising(tags[..k] + tags[k + 1..])
  {
  }

  /** The steps of workers and deliverers, and the rest of a sender's steps, leave the lines alone. */
  ghost predicate LinesAlone(s: State, s': State) {
    && s'.entered == s.entered && s'.next == s.next && s'.serial.Keys == s.serial.Keys
    && (forall u <- s'.senders :: u in s.senders ==> s'.senders[u].peer == s.senders[u].peer && s'.senders[u].pending == s.senders[u].pending)
    && (forall u <- s'.senders :: u !in s.senders ==> s'.senders[u].pending == [])
    && (forall u, v :: u in s'.senders && v in s'.senders && u !in s.senders && s'.senders[u].peer == s'.senders[v].peer ==> u == v)
    && (forall p :: p in s.packets && p in s'.packets ==> TagOf(s', p) == TagOf(s, p))
  }

  lemma AloneOrders(s: State, s': State)
    requires Inv(s) && Inv(s') && Ordered(s) && LinesAlone(s, s')
    ensures Ordered(s')
  {
    forall u | u in s'.senders ensures LineReady(s', u) && Rising(Line(s', u)) && Below(s', Line(s', u)) {
      SenderReady(s', u);
      if u in s.senders {
        SenderReady(s, u);
        hide Inv, Rising, Below, Line;
        LineStays(s, s', u);
      } else {
        assert Line(s', u) == s.entered[s'.senders[u].peer];
      }
    }
    hide Inv, Rising, Line;
  }

  lemma BeginAlone(s: State, t: Id, q: Id)
    requires CanBegin(s, t, q) && forall u <- s.senders :: s.senders[u].peer != q
    ensures LinesAlone(s, DoBegin(s, t, q))
  {
  }

  lemma AbortAlone(s: State, t: Id)
    requires CanAbort(s, t)
    ensures LinesAlone(s, DoAbort(s, t))
  {
  }

  lemma ForwardAlone(s: State, t: Id)
    requires CanForward(s, t)
    ensures LinesAlone(s, DoForward(s, t))
  {
    if s.parallel.len < MAX_QUEUED_PKT {
      assert DoForward(s, t).senders.Keys == s.senders.Keys;
    } else {
      assert DoForward(s, t).senders.Keys == s.senders.Keys;
    }
  }

  lemma MarkDeadAlone(s: State, t: Id)
    requires CanMarkDead(s, t)
    ensures LinesAlone(s, DoMarkDead(s, t))
  {
    assert DoMarkDead(s, t).senders.Keys == s.senders.Keys;
  }

  lemma EndAlone(s: State, t: Id)
    requires CanEnd(s, t)
    ensures LinesAlone(s, DoEnd(s, t))
  {
  }

  lemma WorkerAlone(s: State, t: Id, ok: bool)
    ensures CanTake(s, t) ==> LinesAlone(s, DoTake(s, t))
    ensures CanFinish(s, t) ==> LinesAlone(s, DoFinish(s, t, ok))
  {
  }

  lemma DelivererAlone(s: State, q: Id)
    ensures CanPull(s, q) ==> LinesAlone(s, DoPull(s, q))
    ensures CanRelease(s, q) ==> LinesAlone(s, DoRelease(s, q))
  {
    assert CanPull(s, q) ==> DoPull(s, q).serial.Keys == s.serial.Keys;
  }

  lemma ApplyOrders(s: State, step: Step)
    requires Inv(s) && Ordered(s) && Enabled(s, step) && Disciplined(s, step)
    ensures Ordered(Apply(s, step))
  {
    ApplyKeeps(s, step);
    hide Inv, Ordered, LinesAlone;
    match step
    case Stage(t, k, p) => StageOrders(s, t, k, p);
    case Enter(t) => EnterOrders(s, t);
    case Begin(t, q) => BeginAlone(s, t, q); AloneOrders(s, DoBegin(s, t, q));
    case Abort(t) => AbortAlone(s, t); AloneOrders(s, DoAbort(s, t));
    case Forward(t) => ForwardAlone(s, t); AloneOrders(s, DoForward(s, t));
    case MarkDead(t) => MarkDeadAlone(s, t); AloneOrders(s, DoMarkDead(s, t));
    case End(t) => EndAlone(s, t); AloneOrders(s, DoEnd(s, t));
    case Take(t) => WorkerAlone(s, t, true); AloneOrders(s, DoTake(s, t));
    case Finish(t, ok) => WorkerAlone(s, t, ok); AloneOrders(s, DoFinish(s, t, ok));
    case Pull(q) => DelivererAlone(s, q); AloneOrders(s, DoPull(s, q));
    case Release(q) => DelivererAlone(s, q); AloneOrders(s, DoRelease(s, q));
  }

  lemma {:induction false} RunOrders(s: State, steps: seq<Step>)
    requires Inv(s) && Ordered(s) && Legal(s, steps) && AllDisciplined(s, steps)
    ensures Inv(Exec(s, steps)) && Ordered(Exec(s, steps))
    decreases |steps|
  {
    if steps != [] {
      ApplyKeeps(s, steps[0]);
      ApplyOrders(s, steps[0]);
      hide Inv, Apply, Enabled, Ordered, Disciplined;
      RunOrders(Apply(s, steps[0]), steps[1..]);
    }
  }

  predicate AllDisciplined(s: State, steps: seq<Step>)
    requires Legal(s, steps)
    decreases |steps|
  {
    steps == [] || (Disciplined(s, steps[0]) && AllDisciplined(Apply(s, steps[0]), steps[1..]))
  }

  /** The packets handed to the socket: those that left their queue encrypted. */
  function Sent(tags: seq<Tag>, outcome: seq<bool>): (sent: seq<Tag>)
    requires |outcome| <= |tags|
    decreases |outcome|
  {
    if outcome == [] then []
    else
      var k := |outcome| - 1;
      Sent(tags, outcome[..k]) + if outcome[k] then [tags[k]] else []
  }

  lemma {:induction false} SentRising(tags: seq<Tag>, outcome: seq<bool>)
    requires |outcome| <= |tags| && Rising(tags)
    ensures Rising(Sent(tags, outcome))
    ensures forall x <- Sent(tags, outcome) :: exists i :: 0 <= i < |outcome| && tags[i] == x
    decreases |outcome|
  {
    if outcome != [] {
      var k := |outcome| - 1;
      SentRising(tags, outcome[..k]);
      var rest := Sent(tags, outcome[..k]);
      if outcome[k] {
        forall i | 0 <= i < |rest| && rest[i].keypair == tags[k].keypair ensures rest[i].nonce < tags[k].nonce {
          assert rest[i] in rest;
        }
        RisingMore(rest, tags[k]);
      }
    }
  }

  /** With sends to one peer not overlapping, no interleaving of the rest puts a nonce on the wire
      twice or out of order. */
  lemma NoncesRise(s: State, steps: seq<Step>, q: Id)
    requires Initial(s) && Legal(s, steps) && AllDisciplined(s, steps) && q in Exec(s, steps).serial
    ensures var e := Exec(s, steps);
      q in e.left && q in e.outcome && |e.outcome[q]| <= |e.left[q]| && Rising(Sent(e.left[q], e.outcome[q]))
  {
    InitialOk(s);
    RunOrders(s, steps);
    var e := Exec(s, steps);
    assert PeerOk(e, q);
    hide Exec, Inv;
    RisingPart(e.entered[q], |e.left[q]|);
    assert e.entered[q][..|e.left[q]|] == e.left[q];
    SentRising(e.left[q], e.outcome[q]);
  }

  lemma {:induction false} ExecAppend(s: State, a: seq<Step>, b: seq<Step>)
    requires Legal(s, a) && Legal(Exec(s, a), b)
    ensures Legal(s, a + b) && Exec(s, a + b) == Exec(Exec(s, a), b)
    decreases |a|
  {
    if a == [] {
      assert a + b == b;
    } else {
      assert (a + b)[0] == a[0] && (a + b)[1..] == a[1..] + b;
      hide Enabled, Apply;
      ExecAppend(Apply(s, a[0]), a[1..], b);
    }
  }

  /** A peer q and nothing on its way. */
  function Idle(q: Id): State {
    State(map[], map[q := Queue([], 0)], Queue([], 0), map[], map[], map[], map[], map[], {}, map[q := []], map[q := []], map[q := []])
  }

  lemma Two(s: State, a: Step, b: Step)
    requires Enabled(s, a) && Enabled(Apply(s, a), b)
    ensures Legal(s, [a, b]) && Exec(s, [a, b]) == Apply(Apply(s, a), b)
  {
    hide Enabled, Apply;
    var s1, s2 := Apply(s, a), Apply(Apply(s, a), b);
    Unroll(s1, [b], s2);
    assert [a, b][1..] == [b] && [b][1..] == [];
    Unroll(s, [a, b], s1);
  }

  /** Two senders at work for one peer. */
  function Overlapping(q: Id): State {
    Idle(q).(senders := map[1 := Sender(q, [], None, false), 2 := Sender(q, [], None, false)])
  }

  lemma BeginTwo(q: Id)
    ensures Legal(Idle(q), [Begin(1, q), Begin(2, q)]) && Exec(Idle(q), [Begin(1, q), Begin(2, q)]) == Overlapping(q)
  {
    Two(Idle(q), Begin(1, q), Begin(2, q));
  }

  /** The first has drawn nonce 0, the second nonce 1. */
  function Drawn(q: Id, k: Id): State {
    Overlapping(q).(
      packets := map[10 := Packet(Uncrypted, q, k, 0), 20 := Packet(Uncrypted, q, k, 1)], next := map[k := 2],
      place := map[10 := Pending(1), 20 := Pending(2)],
      senders := map[1 := Sender(q, [10], None, false), 2 := Sender(q, [20], None, false)])
  }

  lemma StageTwo(q: Id, k: Id)
    ensures Legal(Overlapping(q), [Stage(1, k, 10), Stage(2, k, 20)])
    ensures Exec(Overlapping(q), [Stage(1, k, 10), Stage(2, k, 20)]) == Drawn(q, k)
  {
    var s := Overlapping(q);
    Two(s, Stage(1, k, 10), Stage(2, k, 20));
    var s2 := Apply(Apply(s, Stage(1, k, 10)), Stage(2, k, 20));
    assert [] + [10] == [10] && [] + [20] == [20];
    assert s2.senders == map[1 := Sender(q, [10], None, false), 2 := Sender(q, [20], None, false)];
    assert s2.packets == map[10 := Packet(Uncrypted, q, k, 0), 20 := Packet(Uncrypted, q, k, 1)];
    assert s2.next == map[k := 2] && s2.place == map[10 := Pending(1), 20 := Pending(2)];
  }

  /** And the second has queued before the first. */
  function Inverted(q: Id, k: Id): State {
    Drawn(q, k).(
      serial := map[q := Queue([20, 10], 2)], place := map[10 := Entering(1), 20 := Entering(2)],
      entered := map[q := [Tag(20, k, 1), Tag(10, k, 0)]],
      senders := map[1 := Sender(q, [], Some(10), false), 2 := Sender(q, [], Some(20), false)])
  }

  lemma EnterTwo(q: Id, k: Id)
    ensures Legal(Drawn(q, k), [Enter(2), Enter(1)]) && Exec(Drawn(q, k), [Enter(2), Enter(1)]) == Inverted(q, k)
  {
    var s := Drawn(q, k);
    var s1 := Apply(s, Enter(2));
    assert [] + [20] == [20] && [] + [Tag(20, k, 1)] == [Tag(20, k, 1)] && [20][1..] == [];
    assert s1 == s.(serial := map[q := Queue([20], 1)], place := s1.place, senders := s1.senders, entered := map[q := [Tag(20, k, 1)]]);
    assert s1.senders == map[1 := Sender(q, [10], None, false), 2 := Sender(q, [], Some(20), false)];
    assert s1.place == map[10 := Pending(1), 20 := Entering(2)];
    EnterSecond(s1, q, k);
    hide Apply, Enabled, Drawn, Inverted;
    Two(s, Enter(2), Enter(1));
  }

  lemma EnterSecond(s: State, q: Id, k: Id)
    requires var d := Drawn(q, k);
      s == d.(serial := map[q := Queue([20], 1)], entered := map[q := [Tag(20, k, 1)]], place := map[10 := Pending(1), 20 := Entering(2)],
              senders := map[1 := Sender(q, [10], None, false), 2 := Sender(q, [], Some(20), false)])
    ensures Enabled(s, Enter(1)) && Apply(s, Enter(1)) == Inverted(q, k)
  {
    var s1 := DoEnter(s, 1);
    assert [10][1..] == [] && [20] + [10] == [20, 10] && [Tag(20, k, 1)] + [Tag(10, k, 0)] == [Tag(20, k, 1), Tag(10, k, 0)];
    assert s1.senders == map[1 := Sender(q, [], Some(10), false), 2 := Sender(q, [], Some(20), false)];
    assert s1.place == map[10 := Entering(1), 20 := Entering(2)] && s1.serial == map[q := Queue([20, 10], 2)];
    assert s1.entered == map[q := [Tag(20, k, 1), Tag(10, k, 0)]];
  }

  /** Two senders that overlap: the one that drew its nonce later queues first. */
  lemma Overlap(q: Id, k: Id) returns (steps: seq<Step>)
    ensures Legal(Idle(q), steps) && Exec(Idle(q), steps) == Inverted(q, k)
  {
    var a, b, c := [Begin(1, q), Begin(2, q)], [Stage(1, k, 10), Stage(2, k, 20)], [Enter(2), Enter(1)];
    steps := a + (b + c);
    hide Legal, Exec, Idle, Overlapping, Drawn, Inverted;
    BeginTwo(q);
    StageTwo(q, k);
    EnterTwo(q, k);
    ExecAppend(Overlapping(q), b, c);
    ExecAppend(Idle(q), a, b + c);
  }

  predicate Ready(s: State, t: Id, p: Id, q: Id) {
    && t in s.senders && s.senders[t].between == Some(p) && !s.senders[t].full && s.parallel == Queue([], 0) && s.workers == map[]
    && q in s.serial && q !in s.delivering && q in s.left && q in s.outcome && p in s.packets
    && s.serial[q].len > 0 && s.serial[q].items != [] && s.serial[q].items[0] == p
  }

  /** The head of a serial queue goes through a worker. */
  function Worked(s: State, t: Id, p: Id): State
    requires t in s.senders && p in s.packets
  {
    s.(packets := s.packets[p := s.packets[p].(ring := Crypted)], place := s.place[p := Finished],
       senders := s.senders[t := s.senders[t].(between := None)])
  }

  lemma TakesOver(s: State, t: Id, p: Id, q: Id)
    requires Ready(s, t, p, q)
    ensures Legal(s, [Forward(t), Take(1)])
    ensures Exec(s, [Forward(t), Take(1)]) == s.(workers := map[1 := p], place := s.place[p := Working(1)],
                                                 senders := s.senders[t := s.senders[t].(between := None)])
  {
    var s1 := Apply(s, Forward(t));
    assert [] + [p] == [p] && [p][1..] == [];
    var s2 := Apply(s1, Take(1));
    assert s2.place == s.place[p := Working(1)];
    Two(s, Forward(t), Take(1));
  }

  lemma Works(s: State, t: Id, p: Id, q: Id)
    requires Ready(s, t, p, q)
    ensures Legal(s, [Forward(t), Take(1)] + [Finish(1, true)])
    ensures Exec(s, [Forward(t), Take(1)] + [Finish(1, true)]) == Worked(s, t, p)
  {
    TakesOver(s, t, p, q);
    var s2 := s.(workers := map[1 := p], place := s.place[p := Working(1)], senders := s.senders[t := s.senders[t].(between := None)]);
    var s3 := Apply(s2, Finish(1, true));
    assert s3.workers == map[] && s3.place == s.place[p := Finished];
    assert s3 == Worked(s, t, p);
    hide Apply, Enabled, Worked;
    assert [Finish(1, true)][1..] == [];
    Unroll(s2, [Finish(1, true)], s3);
    ExecAppend(s, [Forward(t), Take(1)], [Finish(1, true)]);
  }

  lemma Leaves(s: State, p: Id, q: Id)
    requires q in s.serial && q !in s.delivering && q in s.left && q in s.outcome && p in s.packets
    requires s.packets[p].ring == Crypted
    requires s.serial[q].len > 0 && s.serial[q].items != [] && s.serial[q].items[0] == p
    ensures Legal(s, [Pull(q), Release(q)])
    ensures var e := Exec(s, [Pull(q), Release(q)]);
      e == s.(packets := s.packets - {p}, place := e.place, freed := e.freed, serial := s.serial[q := Pop(s.serial[q])],
              left := s.left[q := s.left[q] + [TagOf(s, p)]], outcome := s.outcome[q := s.outcome[q] + [true]])
  {
    var s1 := Apply(s, Pull(q));
    var s2 := Apply(s1, Release(q));
    assert s2.delivering == s.delivering;
    Two(s, Pull(q), Release(q));
  }

  /** The head of the serial queue on its way through a worker to the socket. */
  lemma ToTheWire(s: State, t: Id, p: Id, q: Id) returns (steps: seq<Step>)
    requires Ready(s, t, p, q)
    ensures Legal(s, steps)
    ensures var e := Exec(s, steps);
      e == Worked(s, t, p).(packets := s.packets - {p}, place := e.place, freed := e.freed, serial := s.serial[q := Pop(s.serial[q])],
              left := s.left[q := s.left[q] + [TagOf(s, p)]], outcome := s.outcome[q := s.outcome[q] + [true]])
  {
    var a, b := [Forward(t), Take(1)] + [Finish(1, true)], [Pull(q), Release(q)];
    steps := a + b;
    Works(s, t, p, q);
    hide Legal, Exec;
    Leaves(Worked(s, t, p), p, q);
    ExecAppend(s, a, b);
    assert Worked(s, t, p).packets - {p} == s.packets - {p};
  }

  /** Two overlapping sends to one peer can put their nonces on the wire in the wrong order. */
  lemma OverlapInverts(q: Id, k: Id) returns (s: State, steps: seq<Step>)
    ensures Initial(s) && Legal(s, steps)
    ensures var e := Exec(s, steps);
      && q in e.left && q in e.outcome && |e.outcome[q]| <= |e.left[q]|
      && Sent(e.left[q], e.outcome[q]) == [Tag(20, k, 1), Tag(10, k, 0)] && !Rising(Sent(e.left[q], e.outcome[q]))
  {
    s := Idle(q);
    assert Initial(s);
    var a := Overlap(q, k);
    var b := BothLeave(q, k);
    hide Exec, Legal, Idle, Inverted;
    ExecAppend(s, a, b);
    steps := a + b;
    var wire := [Tag(20, k, 1), Tag(10, k, 0)];
    BothSent(wire[0], wire[1]);
    assert wire[0].keypair == wire[1].keypair && wire[1].nonce < wire[0].nonce;
  }

  /** The second sender's packet goes first. */
  lemma SecondLeaves(q: Id, k: Id) returns (steps: seq<Step>)
    ensures Legal(Inverted(q, k), steps)
    ensures var f := Exec(Inverted(q, k), steps);
      Ready(f, 1, 10, q) && f.left[q] == [Tag(20, k, 1)] && f.outcome[q] == [true] && TagOf(f, 10) == Tag(10, k, 0)
  {
    var e := Inverted(q, k);
    hide Exec, Legal;
    steps := ToTheWire(e, 2, 20, q);
    assert [20, 10][1..] == [10] && [] + [Tag(20, k, 1)] == [Tag(20, k, 1)] && [] + [true] == [true];
  }

  lemma BothLeave(q: Id, k: Id) returns (steps: seq<Step>)
    ensures Legal(Inverted(q, k), steps)
    ensures var e := Exec(Inverted(q, k), steps);
      q in e.left && q in e.outcome && e.left[q] == [Tag(20, k, 1), Tag(10, k, 0)] && e.outcome[q] == [true, true]
  {
    var b := SecondLeaves(q, k);
    hide Exec, Legal, Inverted;
    var f := Exec(Inverted(q, k), b);
    assert q in f.left && q in f.outcome;
    assert [Tag(20, k, 1)] + [Tag(10, k, 0)] == [Tag(20, k, 1), Tag(10, k, 0)] && [true] + [true] == [true, true];
    hide Ready, Worked, TagOf;
    var c := ToTheWire(f, 1, 10, q);
    ExecAppend(Inverted(q, k), b, c);
    steps := b + c;
  }

  lemma BothSent(x: Tag, y: Tag)
    ensures Sent([x, y], [true, true]) == [x, y]
  {
    assert [true, true][..1] == [true] && [true][..0] == [];
    assert Sent([x, y], [true]) == [x];
  }

  lemma Unroll(s: State, steps: seq<Step>, s': State)
    requires steps != [] && Enabled(s, steps[0]) && s' == Apply(s, steps[0])
    ensures Legal(s, steps) <==> Legal(s', steps[1..])
    ensures Legal(s, steps) ==> Exec(s, steps) == Exec(s', steps[1..])
  {
  }
}
