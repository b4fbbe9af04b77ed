/** The peer table of a session, the commands that change it at run time, and the routes it stands for. */
module Peers {
  import opened Wrappers
  import opened Words
  import opened NoiseCrypto
  import opened AllowedIps

  const MAX_PEERS: nat := 8
  const MAX_CIDRS: nat := 16

  datatype Family = V4 | V6

  function MaxBits(f: Family): nat { if f == V4 then 32 else 128 }

  datatype Block = Block(family: Family, addr: seq<byte>, len: nat)
  type Cidr = c: Block | 8 * |c.addr| == MaxBits(c.family) && c.len <= MaxBits(c.family)
    witness Block(V4, [0, 0, 0, 0], 0)

  function Prefix(c: Cidr): seq<bool> { Bits(c.addr, c.len) }

  /** The address lies in the block. */
  predicate Covers(c: Cidr, f: Family, addr: seq<byte>) {
    c.family == f && |addr| == |c.addr| && Bits(addr, c.len) == Prefix(c)
  }

  type Endpoint = seq<byte>
  type RemoteId = int

  datatype Slot = Slot(active: bool, pubkey: Key, psk: Key, hasPsk: bool, endpoint: Option<Endpoint>,
    keepalive: int, allowed: seq<Cidr>, remote: Option<RemoteId>)

  const TOMBSTONE := Slot(false, NO_KEY, NO_KEY, false, None, 0, [], None)

  predicate Bounded(peers: seq<Slot>) {
    |peers| <= MAX_PEERS && forall p <- peers :: |p.allowed| <= MAX_CIDRS
  }

  // ---- Routes ---------------------------------------------------------------------------

  /** A later entry for the same prefix replaces an earlier one. */
  function AddRoutes(t: Table, i: nat, cidrs: seq<Cidr>, f: Family): Table
    decreases |cidrs|
  {
    if cidrs == [] then t
    else
      var before, c := AddRoutes(t, i, cidrs[..|cidrs| - 1], f), cidrs[|cidrs| - 1];
      if c.family == f then before[Prefix(c) := i] else before
  }

  /** The blocks of the active peers, entered in the order of the slots. */
  function Routes(peers: seq<Slot>, f: Family): Table
    decreases |peers|
  {
    if peers == [] then map[]
    else
      var before, p := Routes(peers[..|peers| - 1], f), peers[|peers| - 1];
      if p.active then AddRoutes(before, |peers| - 1, p.allowed, f) else before
  }

  predicate Lists(cidrs: seq<Cidr>, f: Family, p: seq<bool>) {
    exists c <- cidrs :: c.family == f && Prefix(c) == p
  }

  predicate Owns(peers: seq<Slot>, f: Family, p: seq<bool>, i: int) {
    0 <= i < |peers| && peers[i].active && Lists(peers[i].allowed, f, p)
  }

  lemma ListsLast(cidrs: seq<Cidr>, f: Family, p: seq<bool>)
    requires cidrs != []
    ensures var c := cidrs[|cidrs| - 1];
      Lists(cidrs, f, p) <==> Lists(cidrs[..|cidrs| - 1], f, p) || (c.family == f && Prefix(c) == p)
  {
    assert cidrs == cidrs[..|cidrs| - 1] + [cidrs[|cidrs| - 1]];
  }

  lemma {:induction false} AddRoutesAre(t: Table, i: nat, cidrs: seq<Cidr>, f: Family, p: seq<bool>)
    ensures p in AddRoutes(t, i, cidrs, f) <==> p in t || Lists(cidrs, f, p)
    ensures Lists(cidrs, f, p) ==> AddRoutes(t, i, cidrs, f)[p] == i
    ensures p in t && !Lists(cidrs, f, p) ==> AddRoutes(t, i, cidrs, f)[p] == t[p]
    decreases |cidrs|
  {
    if cidrs != [] {
      AddRoutesAre(t, i, cidrs[..|cidrs| - 1], f, p);
      ListsLast(cidrs, f, p);
      hide Lists, Prefix;
    }
  }

  /** A prefix is routed exactly when an active peer lists it, and to the last peer that does. */
  lemma {:induction false} RoutesAre(peers: seq<Slot>, f: Family, p: seq<bool>)
    ensures p in Routes(peers, f) <==> exists i :: Owns(peers, f, p, i)
    ensures p in Routes(peers, f) ==> Owns(peers, f, p, Routes(peers, f)[p])
    ensures p in Routes(peers, f) ==> forall i :: Owns(peers, f, p, i) ==> i <= Routes(peers, f)[p]
    decreases |peers|
  {
    if peers != [] {
      var front, last := peers[..|peers| - 1], |peers| - 1;
      RoutesAre(front, f, p);
      hide Lists;
      assert forall i :: Owns(front, f, p, i) ==> Owns(peers, f, p, i);
      assert forall i :: Owns(peers, f, p, i) && i != last ==> Owns(front, f, p, i);
      assert Owns(peers, f, p, last) <==> peers[last].active && Lists(peers[last].allowed, f, p);
      if peers[last].active {
        AddRoutesAre(Routes(front, f), last, peers[last].allowed, f, p);
      }
    }
  }

  /** Peer i is active and has a block for the address that no active peer's block beats. */
  ghost predicate Best(peers: seq<Slot>, f: Family, dst: seq<byte>, i: int, c: Cidr) {
    && 0 <= i < |peers| && peers[i].active && c in peers[i].allowed && Covers(c, f, dst)
    && forall j, d :: 0 <= j < |peers| && peers[j].active && d in peers[j].allowed && Covers(d, f, dst) ==>
         d.len < c.len || (d.len == c.len && j <= i)
  }

  function Routed(peers: seq<Slot>, f: Family, dst: seq<byte>): Option<int>
    requires 8 * |dst| == MaxBits(f)
  {
    Longest(Routes(peers, f), Bits(dst, MaxBits(f)), MaxBits(f))
  }

  /** A destination is routed exactly when some active peer has a block for it, and then to an active
      peer with a block as long as any; of those, to the last one. */
  lemma RouteIsLongest(peers: seq<Slot>, f: Family, dst: seq<byte>)
    requires 8 * |dst| == MaxBits(f)
    ensures Routed(peers, f, dst).None? <==>
      forall i, c :: 0 <= i < |peers| && peers[i].active && c in peers[i].allowed ==> !Covers(c, f, dst)
    ensures Routed(peers, f, dst).Some? ==> exists c :: Best(peers, f, dst, Routed(peers, f, dst).value, c)
  {
    var n, t := MaxBits(f), Routes(peers, f);
    var bits := Bits(dst, n);
    LongestIsLongest(t, bits, n);
    assert forall k :: 0 <= k <= n ==> bits[..k] == Bits(dst, k);
    forall i, c | 0 <= i < |peers| && peers[i].active && c in peers[i].allowed && Covers(c, f, dst)
      ensures bits[..c.len] in t && i <= t[bits[..c.len]]
    {
      assert Owns(peers, f, Prefix(c), i);
      RoutesAre(peers, f, Prefix(c));
    }
    hide Longest, Routes, MaxBits;
    if Routed(peers, f, dst).Some? {
      var i := Routed(peers, f, dst).value;
      var k :| 0 <= k <= n && bits[..k] in t && t[bits[..k]] == i && forall j :: k < j <= n ==> bits[..j] !in t;
      RoutesAre(peers, f, bits[..k]);
      var c :| c in peers[i].allowed && c.family == f && Prefix(c) == bits[..k];
      assert c.len == k;
      assert Best(peers, f, dst, i, c);
    }
  }

  // ---- Runtime commands -----------------------------------------------------------------

  /** A line of a configuration command, its value already decoded; None is a value that does not
      decode. `alloc` is the address of the remote that adding a peer would allocate. */
  datatype Line =
    | Ignored
    | Unsupported
    | ListenPort(port: int)
    | PublicKey(key: Option<Key>, alloc: RemoteId)
    | Remove(yes: bool)
    | PresharedKey(psk: Option<Key>)
    | SetEndpoint(endpoint: Option<Endpoint>)
    | Keepalive(seconds: int)
    | ReplaceAllowed(yes: bool)
    | AllowedIp(cidr: Option<Cidr>)

  datatype State = State(peers: seq<Slot>, port: int, cur: Option<nat>)

  /** The first slot from i on of an active peer with this key. */
  function FindFrom(peers: seq<Slot>, key: Key, i: nat): (r: Option<nat>)
    requires i <= |peers|
    ensures r.Some? ==> i <= r.value < |peers| && peers[r.value].active && peers[r.value].pubkey == key
    ensures r.None? ==> forall j :: i <= j < |peers| && peers[j].active ==> peers[j].pubkey != key
    decreases |peers| - i
  {
    if i == |peers| then None
    else if peers[i].active && peers[i].pubkey == key then Some(i)
    else FindFrom(peers, key, i + 1)
  }

  /** The first slot from i on that is free, or a new one while there is room. */
  function FreeFrom(peers: seq<Slot>, i: nat): (r: Option<nat>)
    requires i <= |peers|
    ensures r.Some? && r.value < |peers| ==> i <= r.value && !peers[r.value].active
    ensures r.Some? && r.value >= |peers| ==> r.value == |peers| < MAX_PEERS && forall j :: i <= j < |peers| ==> peers[j].active
    ensures r.None? ==> |peers| >= MAX_PEERS && forall j :: i <= j < |peers| ==> peers[j].active
    ensures r.Some? ==> forall j :: i <= j < r.value && j < |peers| ==> peers[j].active
    decreases |peers| - i
  {
    if i < |peers| then (if peers[i].active then FreeFrom(peers, i + 1) else Some(i))
    else if |peers| >= MAX_PEERS then None
    else Some(|peers|)
  }

  function Added(key: Key, alloc: RemoteId): Slot {
    Slot(true, key, NO_KEY, false, None, 0, [], Some(alloc))
  }

  function Place(peers: seq<Slot>, i: nat, p: Slot): seq<Slot>
    requires i <= |peers|
  {
    if i < |peers| then peers[i := p] else peers + [p]
  }

  /** A field of the peer that the commands are at; None is a refusal. */
  function Edit(p: Slot, line: Line): Option<Slot> {
    match line
    case Remove(yes) => Some(if yes then TOMBSTONE else p)
    case PresharedKey(psk) => if psk.None? then None else Some(p.(psk := psk.value, hasPsk := psk.value != NO_KEY))
    case SetEndpoint(endpoint) => if endpoint.None? then None else Some(p.(endpoint := endpoint))
    case Keepalive(seconds) => if 0 <= seconds <= 65535 then Some(p.(keepalive := seconds)) else None
    case ReplaceAllowed(yes) => Some(if yes then p.(allowed := []) else p)
    case AllowedIp(cidr) =>
      if |p.allowed| >= MAX_CIDRS || cidr.None? then None else Some(p.(allowed := p.allowed + [cidr.value]))
    case _ => Some(p)
  }

  /** One line; None is a refusal, which leaves the state as it was. */
  function Step(s: State, line: Line): (r: Option<State>)
    requires s.cur.Some? ==> s.cur.value < |s.peers|
    ensures r.Some? && r.value.cur.Some? ==> r.value.cur.value < |r.value.peers|
  {
    match line
    case Ignored => Some(s)
    case Unsupported => None
    case ListenPort(port) => if 0 <= port <= 65535 then Some(s.(port := port)) else None
    case PublicKey(key, alloc) => if key.None? then None else Select(s, key.value, alloc)
    case _ => Amend(s, line)
  }

  /** A field before any peer is named is skipped. */
  function Amend(s: State, line: Line): (r: Option<State>)
    requires s.cur.Some? ==> s.cur.value < |s.peers|
    ensures r.Some? && r.value.cur.Some? ==> r.value.cur.value < |r.value.peers|
  {
    if s.cur.None? then Some(s)
    else
      var p := Edit(s.peers[s.cur.value], line);
      if p.None? then None
      else Some(s.(peers := s.peers[s.cur.value := p.value], cur := if line == Remove(true) then None else s.cur))
  }

  function Select(s: State, key: Key, alloc: RemoteId): (r: Option<State>)
    ensures r.Some? ==> r.value.cur.Some? && r.value.cur.value < |r.value.peers|
  {
    var found := FindFrom(s.peers, key, 0);
    if found.Some? then Some(s.(cur := found))
    else
      var i := FreeFrom(s.peers, 0);
      if i.None? then None else Some(s.(peers := Place(s.peers, i.value, Added(key, alloc)), cur := i))
  }

  ghost predicate Sound(s: State) {
    Bounded(s.peers) && (s.cur.Some? ==> s.cur.value < |s.peers| && s.peers[s.cur.value].active)
  }

  lemma SoundCur(s: State)
    requires Sound(s)
    ensures s.cur.Some? ==> s.cur.value < |s.peers| && s.peers[s.cur.value].active
  {
  }

  lemma StepSound(s: State, line: Line)
    requires Sound(s) && Step(s, line).Some?
    ensures Sound(Step(s, line).value)
  {
  }

  /** The state when the lines have been carried out up to the first refusal, and whether there was none. */
  ghost function Run(s: State, lines: seq<Line>): (r: (State, bool))
    requires Sound(s)
    ensures Sound(r.0)
    decreases |lines|
  {
    if lines == [] then (s, true)
    else
      var next := Step(s, lines[0]);
      if next.None? then (s, false)
      else
        StepSound(s, lines[0]);
        Run(next.value, lines[1..])
  }

  /** A refused call has done what stands before the offending line, and nothing else. */
  lemma {:induction false} RunAppend(s: State, a: seq<Line>, b: seq<Line>)
    requires Sound(s)
    ensures Run(s, a + b) == if Run(s, a).1 then Run(Run(s, a).0, b) else Run(s, a)
    decreases |a|
  {
    if a == [] {
      assert a + b == b;
    } else {
      assert (a + b)[0] == a[0] && (a + b)[1..] == a[1..] + b;
      var next := Step(s, a[0]);
      if next.Some? {
        StepSound(s, a[0]);
        hide Sound, Step;
        RunAppend(next.value, a[1..], b);
      }
    }
  }

  // ---- What the commands leave alone ----------------------------------------------------

  predicate Distinct(peers: seq<Slot>) {
    forall i, j :: 0 <= i < j < |peers| && peers[i].active && peers[j].active ==> peers[i].pubkey != peers[j].pubkey
  }

  lemma StepDistinct(s: State, line: Line)
    requires Sound(s) && Distinct(s.peers) && Step(s, line).Some?
    ensures Distinct(Step(s, line).value.peers)
  {
  }

  /** Commands never make two active peers of one key. */
  lemma {:induction false} RunDistinct(s: State, lines: seq<Line>)
    requires Sound(s) && Distinct(s.peers)
    ensures Distinct(Run(s, lines).0.peers)
    decreases |lines|
  {
    if lines != [] && Step(s, lines[0]).Some? {
      StepSound(s, lines[0]);
      StepDistinct(s, lines[0]);
      hide Sound, Distinct, Step;
      RunDistinct(Step(s, lines[0]).value, lines[1..]);
    }
  }

  predicate Names(lines: seq<Line>, key: Key) {
    exists n :: 0 <= n < |lines| && lines[n].PublicKey? && lines[n].key == Some(key)
  }

  predicate Holds(s: State, i: nat, p: Slot) {
    i < |s.peers| && s.peers[i] == p && s.cur != Some(i)
  }

  lemma StepUntouched(s: State, line: Line, i: nat, p: Slot)
    requires Sound(s) && Holds(s, i, p) && p.active && Step(s, line).Some?
    requires line.PublicKey? ==> line.key != Some(p.pubkey)
    ensures Holds(Step(s, line).value, i, p)
  {
  }

  /** A peer whose key the commands do not name keeps its slot and everything in it. */
  lemma {:induction false} RunUntouched(s: State, lines: seq<Line>, i: nat, p: Slot)
    requires Sound(s) && Holds(s, i, p) && p.active && !Names(lines, p.pubkey)
    ensures Holds(Run(s, lines).0, i, p)
    decreases |lines|
  {
    if lines != [] && Step(s, lines[0]).Some? {
      StepSound(s, lines[0]);
      StepUntouched(s, lines[0], i, p);
      assert Names(lines[1..], p.pubkey) ==> Names(lines, p.pubkey);
      hide Sound, Holds, Step;
      RunUntouched(Step(s, lines[0]).value, lines[1..], i, p);
    }
  }

  /** A peer that is named and removed is gone, whatever came before. */
  lemma RemovedIsGone(s: State, lines: seq<Line>, key: Key, alloc: RemoteId)
    requires Sound(s) && Distinct(s.peers)
    ensures var (s', ok) := Run(s, lines + [PublicKey(Some(key), alloc), Remove(true)]);
      ok ==> forall i :: 0 <= i < |s'.peers| && s'.peers[i].active ==> s'.peers[i].pubkey != key
  {
    RunAppend(s, lines, [PublicKey(Some(key), alloc), Remove(true)]);
    RunDistinct(s, lines);
    var (t, ok) := Run(s, lines);
    if ok {
      RunTwo(t, PublicKey(Some(key), alloc), Remove(true));
      var selected := Step(t, PublicKey(Some(key), alloc));
      if selected.Some? {
        StepDistinct(t, PublicKey(Some(key), alloc));
        hide Run;
        assert selected.value.peers[selected.value.cur.value].pubkey == key;
      }
    }
  }

  lemma RunOne(s: State, a: Line)
    requires Sound(s)
    ensures Run(s, [a]) == if Step(s, a).None? then (s, false) else (Step(s, a).value, true)
  {
    assert [a][1..] == [];
    if Step(s, a).Some? {
      StepSound(s, a);
    }
  }

  lemma RunTwo(s: State, a: Line, b: Line)
    requires Sound(s)
    ensures Step(s, a).Some? && Step(Step(s, a).value, b).Some? ==> Run(s, [a, b]) == (Step(Step(s, a).value, b).value, true)
    ensures Step(s, a).None? || Step(Step(s, a).value, b).None? ==> !Run(s, [a, b]).1
  {
    assert [a, b] == [a] + [b];
    RunAppend(s, [a], [b]);
    RunOne(s, a);
    if Step(s, a).Some? {
      StepSound(s, a);
      RunOne(Step(s, a).value, b);
    }
  }

  /** Removing the peer of slot i and adding another one puts the new peer into the same slot. */
  lemma SlotIsReused(peers: seq<Slot>, port: int, i: nat, key: Key, spare: RemoteId, key': Key, alloc: RemoteId)
    requires Bounded(peers) && i < |peers| && FindFrom(peers, key, 0) == Some(i) && FindFrom(peers, key', 0) == None
    requires forall j :: 0 <= j < i ==> peers[j].active
    ensures Run(State(peers, port, None), [PublicKey(Some(key), spare), Remove(true), PublicKey(Some(key'), alloc)]) ==
      (State(peers[i := Added(key', alloc)], port, Some(i)), true)
  {
    var s, a, b, c := State(peers, port, None), PublicKey(Some(key), spare), Remove(true), PublicKey(Some(key'), alloc);
    assert [a, b, c] == [a, b] + [c];
    var t := State(peers[i := TOMBSTONE], port, None);
    assert Step(s, a) == Some(s.(cur := Some(i)));
    assert Step(s.(cur := Some(i)), b) == Some(t);
    assert FindFrom(t.peers, key', 0) == None;
    assert !t.peers[i].active && forall j :: 0 <= j < i ==> t.peers[j].active;
    var free := FreeFrom(t.peers, 0);
    assert free.Some? && free.value <= i && free == Some(i);
    assert t.peers[i := Added(key', alloc)] == peers[i := Added(key', alloc)];
    assert Step(t, c) == Some(State(peers[i := Added(key', alloc)], port, Some(i)));
    assert Sound(s) && Sound(t);
    hide Step, Run, Sound;
    RunAppend(s, [a, b], [c]);
    RunTwo(s, a, b);
    RunOne(t, c);
  }

  // ---- The state written out as commands ------------------------------------------------

  function BlockLines(cidrs: seq<Cidr>): seq<Line> {
    seq(|cidrs|, i requires 0 <= i < |cidrs| => AllowedIp(Some(cidrs[i])))
  }

  function ShownPsk(p: Slot): Key { if p.hasPsk then p.psk else NO_KEY }

  /** The lines of a peer that come before its blocks. */
  function Heading(p: Slot, alloc: RemoteId): seq<Line> {
    [PublicKey(Some(p.pubkey), alloc), PresharedKey(Some(ShownPsk(p)))]
    + [if p.endpoint.Some? then SetEndpoint(p.endpoint) else Ignored]
    + [if p.keepalive > 0 then Keepalive(p.keepalive) else Ignored]
  }

  /** What is reported of one peer; handshake times, counters and trailers are lines that set nothing. */
  function PeerLines(p: Slot, alloc: RemoteId): seq<Line> { Heading(p, alloc) + BlockLines(p.allowed) }

  /** The remote for a peer of slot i would be allocated at alloc(i). */
  function Dump(peers: seq<Slot>, alloc: nat -> RemoteId): seq<Line>
    decreases |peers|
  {
    if peers == [] then []
    else Dump(peers[..|peers| - 1], alloc) + LastDump(peers, alloc)
  }

  /** The lines of the last peer. */
  function LastDump(peers: seq<Slot>, alloc: nat -> RemoteId): seq<Line>
    requires peers != []
  {
    var p := peers[|peers| - 1];
    if p.active then PeerLines(p, alloc(|peers| - 1)) else []
  }

  function Report(s: State, alloc: nat -> RemoteId): seq<Line> {
    [Unsupported, ListenPort(s.port), Unsupported] + Dump(s.peers, alloc)
  }

  /** A report that is sent back as it stands changes nothing: its first line is refused. */
  lemma ReportIsRefused(s: State, t: State, alloc: nat -> RemoteId)
    requires Sound(t)
    ensures Run(t, Report(s, alloc)) == (t, false)
  {
    assert Report(s, alloc)[0] == Unsupported;
  }

  function Restored(p: Slot, alloc: RemoteId): Slot {
    var keepalive := if p.keepalive > 0 then p.keepalive else 0;
    Slot(true, p.pubkey, ShownPsk(p), ShownPsk(p) != NO_KEY, p.endpoint, keepalive, p.allowed, Some(alloc))
  }

  /** The active peers, closed up. */
  function Restore(peers: seq<Slot>, alloc: nat -> RemoteId): (r: seq<Slot>)
    ensures |r| <= |peers|
    decreases |peers|
  {
    if peers == [] then []
    else
      var p := peers[|peers| - 1];
      Restore(peers[..|peers| - 1], alloc) + (if p.active then [Restored(p, alloc(|peers| - 1))] else [])
  }

  /** A line that sets a field of the last peer. */
  lemma EditsLast(front: seq<Slot>, p: Slot, port: int, line: Line)
    requires line.PresharedKey? || line.SetEndpoint? || line.Keepalive? || line.AllowedIp? || line.Ignored?
    requires Edit(p, line).Some?
    ensures Step(State(front + [p], port, Some(|front|)), line) ==
      Some(State(front + [Edit(p, line).value], port, Some(|front|)))
  {
    assert (front + [p])[|front| := Edit(p, line).value] == front + [Edit(p, line).value];
  }

  lemma {:induction false} BlocksAdded(s: State, i: nat, cidrs: seq<Cidr>)
    requires Sound(s) && s.cur == Some(i) && i < |s.peers| && |s.peers[i].allowed| + |cidrs| <= MAX_CIDRS
    ensures Run(s, BlockLines(cidrs)) ==
      (s.(peers := s.peers[i := s.peers[i].(allowed := s.peers[i].allowed + cidrs)]), true)
    decreases |cidrs|
  {
    var p := s.peers[i];
    if cidrs == [] {
      assert p.allowed + cidrs == p.allowed && s.peers[i := p] == s.peers;
    } else {
      var line := AllowedIp(Some(cidrs[0]));
      var p' := p.(allowed := p.allowed + [cidrs[0]]);
      var next := s.(peers := s.peers[i := p']);
      assert BlockLines(cidrs)[0] == line && BlockLines(cidrs)[1..] == BlockLines(cidrs[1..]);
      assert p'.allowed + cidrs[1..] == p.allowed + cidrs;
      var q := p.(allowed := p.allowed + cidrs);
      assert p'.(allowed := p'.allowed + cidrs[1..]) == q && next.peers[i := q] == s.peers[i := q];
      assert Step(s, line) == Some(next);
      StepSound(s, line);
      hide Sound, Step;
      BlocksAdded(next, i, cidrs[1..]);
    }
  }

  lemma Selects(s: State, key: Key, alloc: RemoteId)
    requires Sound(s) && |s.peers| < MAX_PEERS && (forall q <- s.peers :: q.active && q.pubkey != key)
    ensures Step(s, PublicKey(Some(key), alloc)) == Some(State(s.peers + [Added(key, alloc)], s.port, Some(|s.peers|)))
  {
  }

  /** A line that sets a field of the last peer, after others. */
  lemma RunOn(s: State, lines: seq<Line>, front: seq<Slot>, p: Slot, port: int, line: Line)
    requires Sound(s) && Sound(State(front + [p], port, Some(|front|)))
    requires Run(s, lines) == (State(front + [p], port, Some(|front|)), true)
    requires line.PresharedKey? || line.SetEndpoint? || line.Keepalive? || line.AllowedIp? || line.Ignored?
    requires Edit(p, line).Some?
    ensures var t := State(front + [Edit(p, line).value], port, Some(|front|));
      Sound(t) && Run(s, lines + [line]) == (t, true)
  {
    var t := State(front + [p], port, Some(|front|));
    EditsLast(front, p, port, line);
    StepSound(t, line);
    hide Sound, Step, Edit, Run;
    RunAppend(s, lines, [line]);
    RunOne(t, line);
  }

  lemma HeadingRestored(s: State, p: Slot, alloc: RemoteId)
    requires Sound(s) && |s.peers| < MAX_PEERS && (forall q <- s.peers :: q.active && q.pubkey != p.pubkey)
    requires |p.allowed| <= MAX_CIDRS && p.keepalive <= 65535
    ensures var t := State(s.peers + [Restored(p, alloc).(allowed := [])], s.port, Some(|s.peers|));
      Sound(t) && Run(s, Heading(p, alloc)) == (t, true)
  {
    var a, b := PublicKey(Some(p.pubkey), alloc), PresharedKey(Some(ShownPsk(p)));
    var c := if p.endpoint.Some? then SetEndpoint(p.endpoint) else Ignored;
    var d := if p.keepalive > 0 then Keepalive(p.keepalive) else Ignored;
    var p1 := Added(p.pubkey, alloc);
    var p2 := Edit(p1, b).value;
    var p3 := Edit(p2, c).value;
    assert Edit(p3, d) == Some(Restored(p, alloc).(allowed := []));
    assert Heading(p, alloc) == [a] + [b] + [c] + [d];
    Selects(s, p.pubkey, alloc);
    StepSound(s, a);
    RunOne(s, a);
    hide Sound, Step, Edit, Run, Heading, Added, Restored;
    RunOn(s, [a], s.peers, p1, s.port, b);
    RunOn(s, [a] + [b], s.peers, p2, s.port, c);
    RunOn(s, [a] + [b] + [c], s.peers, p3, s.port, d);
  }

  lemma PeerRestored(s: State, p: Slot, alloc: RemoteId)
    requires Sound(s) && |s.peers| < MAX_PEERS && (forall q <- s.peers :: q.active && q.pubkey != p.pubkey)
    requires |p.allowed| <= MAX_CIDRS && p.keepalive <= 65535
    ensures var t := State(s.peers + [Restored(p, alloc)], s.port, Some(|s.peers|));
      Sound(t) && Run(s, PeerLines(p, alloc)) == (t, true)
  {
    assert Sound(State(s.peers + [Restored(p, alloc)], s.port, Some(|s.peers|)));
    var q := Restored(p, alloc).(allowed := []);
    assert q.(allowed := q.allowed + p.allowed) == Restored(p, alloc) by { assert [] + p.allowed == p.allowed; }
    HeadingRestored(s, p, alloc);
    hide Sound, Step, Run, Heading, PeerLines, Restored;
    RunAppend(s, Heading(p, alloc), BlockLines(p.allowed));
    var last := State(s.peers + [q], s.port, Some(|s.peers|));
    BlocksAdded(last, |s.peers|, p.allowed);
    assert last.peers[|s.peers| := Restored(p, alloc)] == s.peers + [Restored(p, alloc)];
  }

  lemma {:induction false} RestoreKnown(peers: seq<Slot>, alloc: nat -> RemoteId)
    ensures forall q <- Restore(peers, alloc) :: q.active && exists p <- peers :: p.active && p.pubkey == q.pubkey
    decreases |peers|
  {
    if peers != [] {
      RestoreKnown(peers[..|peers| - 1], alloc);
      assert forall p <- peers[..|peers| - 1] :: p in peers;
      assert peers[|peers| - 1] in peers;
    }
  }

  /** The last peer has a key of its own, and room. */
  lemma LastFits(peers: seq<Slot>, alloc: nat -> RemoteId)
    requires Reportable(peers) && peers != [] && peers[|peers| - 1].active
    ensures var front := peers[..|peers| - 1];
      && |Restore(front, alloc)| < MAX_PEERS
      && forall q <- Restore(front, alloc) :: q.active && q.pubkey != peers[|peers| - 1].pubkey
  {
    var front := peers[..|peers| - 1];
    RestoreKnown(front, alloc);
    hide Restore;
    forall q <- Restore(front, alloc) ensures q.pubkey != peers[|peers| - 1].pubkey {
      var p :| p in front && p.active && p.pubkey == q.pubkey;
    }
  }

  predicate Reportable(peers: seq<Slot>) { Bounded(peers) && Distinct(peers) && forall p <- peers :: p.keepalive <= 65535 }

  lemma FrontReportable(peers: seq<Slot>)
    requires Reportable(peers) && peers != []
    ensures Reportable(peers[..|peers| - 1])
    ensures var p := peers[|peers| - 1]; |p.allowed| <= MAX_CIDRS && p.keepalive <= 65535
  {
  }

  /** Without the two lines that are refused, a report sent to an empty session sets up the same peers. */
  lemma {:induction false} DumpRestores(peers: seq<Slot>, port: int, alloc: nat -> RemoteId)
    requires Reportable(peers)
    ensures var (s, ok) := Run(State([], port, None), Dump(peers, alloc));
      ok && Sound(s) && s.peers == Restore(peers, alloc) && s.port == port
    decreases |peers|
  {
    var start := State([], port, None);
    if peers != [] {
      hide Run, PeerLines, Sound, Reportable, Restored, LastDump;
      FrontReportable(peers);
      DumpRestores(peers[..|peers| - 1], port, alloc);
      LastRestored(Run(start, Dump(peers[..|peers| - 1], alloc)).0, peers, alloc);
      RunAppend(start, Dump(peers[..|peers| - 1], alloc), LastDump(peers, alloc));
    }
  }

  lemma LastRestored(s: State, peers: seq<Slot>, alloc: nat -> RemoteId)
    requires Sound(s) && Reportable(peers) && peers != [] && s.peers == Restore(peers[..|peers| - 1], alloc)
    ensures var (t, ok) := Run(s, LastDump(peers, alloc));
      ok && Sound(t) && t.peers == Restore(peers, alloc) && t.port == s.port
  {
    var p := peers[|peers| - 1];
    FrontReportable(peers);
    hide PeerLines, Sound, Reportable, Restored;
    if p.active {
      hide Run;
      LastFits(peers, alloc);
      PeerRestored(s, p, alloc(|peers| - 1));
    }
  }

  // ---- Replacing the blocks of a peer ---------------------------------------------------

  /** After a replacement the peer has the blocks that were added since, and no others: what is routed to it
      lies in one of them. */
  lemma BlocksReplaced(s: State, i: nat, cidrs: seq<Cidr>, f: Family, dst: seq<byte>)
    requires Sound(s) && s.cur == Some(i) && i < |s.peers| && |cidrs| <= MAX_CIDRS && 8 * |dst| == MaxBits(f)
    ensures var (t, ok) := Run(s, [ReplaceAllowed(true)] + BlockLines(cidrs));
      && ok && t == s.(peers := s.peers[i := s.peers[i].(allowed := cidrs)])
      && (Routed(t.peers, f, dst) == Some(i) ==> exists c <- cidrs :: Covers(c, f, dst))
  {
    var line, cleared := ReplaceAllowed(true), s.(peers := s.peers[i := s.peers[i].(allowed := [])]);
    assert Step(s, line) == Some(cleared);
    StepSound(s, line);
    assert ([line] + BlockLines(cidrs))[1..] == BlockLines(cidrs);
    assert [] + cidrs == cidrs;
    BlocksAdded(cleared, i, cidrs);
    var peers := s.peers[i := s.peers[i].(allowed := cidrs)];
    assert cleared.peers[i := peers[i]] == peers;
    hide Sound, Step, Routed, Covers;
    RouteIsLongest(peers, f, dst);
  }
}
