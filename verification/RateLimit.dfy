/** The token buckets that limit handshake initiations per source address, kept in a hash table
    whose idle entries are collected, against buckets that are never forgotten. */
module RateLimit {
  import opened Wrappers
  import opened Words

  const INITIATION_COST: nat := SECOND / 20
  const TOKEN_MAX: nat := INITIATION_COST * 5
  /** ELEMENT_TIMEOUT * SBT_1S: how long an entry has to be idle before it may be collected. */
  const IDLE: nat := SECOND
  const RATELIMIT_SIZE: nat := 8192
  const RATELIMIT_SIZE_MAX: nat := RATELIMIT_SIZE * 8

  /** Address bytes are read as big-endian numbers; of an IPv6 address only the upper half counts. */
  datatype Address = Inet(ip4: u32) | Inet6(upper: u64, lower: u64) | Other

  /** Who is limited: an IPv4 address, or the upper half of an IPv6 address. */
  datatype Source = V4(vnet: int, ip4: u32) | V6(vnet: int, net: u64)

  // ---- Buckets that are never forgotten -------------------------------------------------

  datatype Bucket = Bucket(tokens: nat, last: int)

  function Refilled(b: Bucket, now: int): nat {
    if b.tokens + (now - b.last) > TOKEN_MAX then TOKEN_MAX
    else if b.tokens + (now - b.last) < 0 then 0
    else b.tokens + (now - b.last)
  }

  /** A source that was never seen has a full bucket. */
  function Available(state: map<Source, Bucket>, s: Source, now: int): nat {
    if s in state then Refilled(state[s], now) else TOKEN_MAX
  }

  predicate Permits(state: map<Source, Bucket>, s: Source, now: int) {
    Available(state, s, now) >= INITIATION_COST
  }

  function Spend(state: map<Source, Bucket>, s: Source, now: int): map<Source, Bucket> {
    var available := Available(state, s, now);
    state[s := Bucket(if available >= INITIATION_COST then available - INITIATION_COST else available, now)]
  }

  /** What has happened: a decision about a source, a source refused because there was no room for it,
      a collection, or a packet of no address family. */
  datatype Event =
    | Decided(source: Source, at: int, ok: bool)
    | Crowded(source: Source, at: int)
    | Collected(at: int)
    | Foreign(at: int)

  function Next(state: map<Source, Bucket>, e: Event): map<Source, Bucket> {
    if e.Decided? then Spend(state, e.source, e.at) else state
  }

  /** The buckets that the decisions so far leave when nothing is ever forgotten. */
  function Replay(log: seq<Event>): map<Source, Bucket>
    decreases |log|
  {
    if log == [] then map[] else Next(Replay(log[..|log| - 1]), log[|log| - 1])
  }

  ghost predicate Ordered(log: seq<Event>) {
    forall i, j :: 0 <= i <= j < |log| ==> log[i].at <= log[j].at
  }

  /** A decision is the one that the unforgotten bucket gives; no room hurts only who would be allowed. */
  predicate Right(state: map<Source, Bucket>, e: Event) {
    && (e.Decided? ==> e.ok == Permits(state, e.source, e.at))
    && (e.Crowded? ==> Permits(state, e.source, e.at))
  }

  ghost predicate Faithful(log: seq<Event>) {
    forall i :: 0 <= i < |log| ==> Right(Replay(log[..i]), log[i])
  }

  predicate Admits(e: Event, s: Source) { e.Decided? && e.source == s && e.ok }

  function Allowed(log: seq<Event>, s: Source): nat
    decreases |log|
  {
    if log == [] then 0 else Allowed(log[..|log| - 1], s) + if Admits(log[|log| - 1], s) then 1 else 0
  }

  lemma FaithfulPrefix(log: seq<Event>, b: nat)
    requires Faithful(log) && Ordered(log) && b <= |log|
    ensures Faithful(log[..b]) && Ordered(log[..b])
  {
    hide Replay, Right;
    forall i | 0 <= i < b ensures Right(Replay(log[..b][..i]), log[..b][i]) {
      assert log[..b][..i] == log[..i];
    }
  }

  /** The last event of a faithful log, and what comes before it. */
  lemma FaithfulLast(log: seq<Event>)
    requires Faithful(log) && Ordered(log) && log != []
    ensures var front, e := log[..|log| - 1], log[|log| - 1];
      && Faithful(front) && Ordered(front) && Right(Replay(front), e) && Replay(log) == Next(Replay(front), e)
      && forall i :: 0 <= i < |log| ==> log[i].at <= e.at
  {
    hide Right, Next;
    FaithfulPrefix(log, |log| - 1);
  }

  lemma {:induction false} ReplayBounds(log: seq<Event>, s: Source)
    requires Ordered(log) && s in Replay(log)
    ensures log != [] && Replay(log)[s].tokens <= TOKEN_MAX && Replay(log)[s].last <= log[|log| - 1].at
    decreases |log|
  {
    assert log != [];
    var front, e := log[..|log| - 1], log[|log| - 1];
    assert Replay(log) == Next(Replay(front), e);
    hide Replay;
    if s in Replay(front) {
      ReplayBounds(front, s);
      assert log[|log| - 2].at <= e.at;
    }
  }

  /** What n initiations cost. */
  function Cost(n: nat): (c: nat)
    ensures c == 50_000_000 * n
  {
    INITIATION_COST * n
  }

  /** One event: what is allowed is paid for. */
  lemma EventConserves(state: map<Source, Bucket>, s: Source, now: int, since: nat, budget: int)
    requires s in state ==> state[s].last <= now && Cost(since) + state[s].tokens <= budget + state[s].last
    requires s !in state ==> Cost(since) + TOKEN_MAX <= budget + now
    ensures var state', since' := Spend(state, s, now), since + if Permits(state, s, now) then 1 else 0;
      Cost(since') + state'[s].tokens <= budget + now
  {
  }

  /** What has been allowed since event a, plus what is left, was there at a or has flowed in since. */
  lemma {:induction false} Conserved(log: seq<Event>, a: nat, s: Source)
    requires Faithful(log) && Ordered(log) && a < |log|
    ensures s in Replay(log) && Replay(log)[s].last >= log[a].at ==>
      Cost(Allowed(log[a..], s)) + Replay(log)[s].tokens <= TOKEN_MAX + (Replay(log)[s].last - log[a].at)
    ensures !(s in Replay(log) && Replay(log)[s].last >= log[a].at) ==> Allowed(log[a..], s) == 0
    decreases |log|
  {
    var front, e := log[..|log| - 1], log[|log| - 1];
    var state, start := Replay(front), log[a].at;
    FaithfulLast(log);
    hide Faithful, Permits, Spend, Replay;
    if s in state {
      ReplayBounds(front, s);
      assert log[|log| - 2].at <= e.at;
    }
    var since := if a < |front| then Allowed(front[a..], s) else 0;
    if a < |front| {
      Conserved(front, a, s);
    }
    AllowedLast(log, a, s);
    if e.Decided? {
      Touch(state, e.source, e.at);
      if e.source == s {
        if s in state && state[s].last < start {
          StaleConserves(state, s, e.at, start);
        } else {
          EventConserves(state, s, e.at, since, TOKEN_MAX - start);
        }
      }
    }
  }

  lemma AllowedLast(log: seq<Event>, a: nat, s: Source)
    requires a < |log|
    ensures var k := |log| - 1;
      Allowed(log[a..], s) == (if a < k then Allowed(log[..k][a..], s) else 0) + if Admits(log[k], s) then 1 else 0
  {
    assert log[a..][..|log| - a - 1] == log[..|log| - 1][a..];
    assert a == |log| - 1 ==> log[..|log| - 1][a..] == [];
  }

  lemma Touch(state: map<Source, Bucket>, s: Source, now: int)
    ensures s in Spend(state, s, now) && Spend(state, s, now)[s].last == now
    ensures forall t :: t != s ==>
      (t in Spend(state, s, now) <==> t in state) && (t in state ==> Spend(state, s, now)[t] == state[t])
  {
  }

  lemma StaleConserves(state: map<Source, Bucket>, s: Source, now: int, start: int)
    requires start <= now
    ensures Cost(if Permits(state, s, now) then 1 else 0) + Spend(state, s, now)[s].tokens <= TOKEN_MAX + (now - start)
  {
  }

  /** Over any stretch of events, a source is allowed no more than its full bucket and the elapsed time pay for. */
  lemma RateBound(log: seq<Event>, a: nat, b: nat, s: Source)
    requires Faithful(log) && Ordered(log) && a < b <= |log|
    ensures Cost(Allowed(log[a..b], s)) <= TOKEN_MAX + (log[b - 1].at - log[a].at)
  {
    var part := log[..b];
    FaithfulPrefix(log, b);
    assert part[a..] == log[a..b] && log[a].at <= log[b - 1].at && part[a] == log[a] && part[b - 1] == log[b - 1];
    hide Replay, Allowed, Faithful;
    Conserved(part, a, s);
    if s in Replay(part) {
      ReplayBounds(part, s);
    }
  }

  // ---- Exactly when a source is refused -------------------------------------------------

  predicate About(e: Event, s: Source) { e.Decided? && e.source == s }

  /** What is left of a full bucket and the time since event a, after all that was allowed from a on. */
  function Slack(log: seq<Event>, a: nat, s: Source, now: int): int
    requires a < |log|
  {
    250_000_000 + (now - log[a].at) - 50_000_000 * Allowed(log[a..], s)
  }

  /** From some decision about s on, what was allowed leaves too little for one more. */
  ghost predicate Overspent(log: seq<Event>, s: Source, now: int) {
    exists a: nat :: a < |log| && About(log[a], s) && Slack(log, a, s, now) < 50_000_000
  }

  /** The bucket holds no more than any stretch leaves, and is full or holds just what one of them leaves. */
  ghost predicate Level(log: seq<Event>, s: Source, now: int) {
    var available := Available(Replay(log), s, now);
    && (forall a: nat :: a < |log| && About(log[a], s) ==> available <= Slack(log, a, s, now))
    && (available == 250_000_000
        || exists a: nat :: a < |log| && About(log[a], s) && available == Slack(log, a, s, now))
  }

  lemma AvailableAfter(state: map<Source, Bucket>, e: Event, s: Source, now: int)
    requires e.Decided? && now >= e.at && Right(state, e)
    ensures e.source != s ==> Available(Next(state, e), s, now) == Available(state, s, now)
    ensures e.source == s ==>
      var left := Available(state, s, e.at) - (if e.ok then 50_000_000 else 0) + (now - e.at);
      Available(Next(state, e), s, now) == if left > 250_000_000 then 250_000_000 else left
    ensures Available(state, s, e.at) <= 250_000_000
  {
  }

  lemma SlackAfter(log: seq<Event>, a: nat, s: Source, now: int)
    requires log != [] && a < |log|
    ensures var k := |log| - 1;
      Slack(log, a, s, now) ==
        (if a < k then Slack(log[..k], a, s, log[k].at) else 250_000_000) + (now - log[k].at)
        - if Admits(log[k], s) then 50_000_000 else 0
  {
    AllowedLast(log, a, s);
    hide Allowed;
  }

  lemma {:induction false} LevelHolds(log: seq<Event>, s: Source, now: int)
    requires Faithful(log) && Ordered(log) && (log != [] ==> now >= log[|log| - 1].at)
    ensures Level(log, s, now)
    decreases |log|
  {
    if log != [] {
      var k := |log| - 1;
      var front, e := log[..k], log[k];
      FaithfulLast(log);
      assert front != [] ==> e.at >= front[|front| - 1].at;
      LevelHolds(front, s, e.at);
      LevelHolds(front, s, now);
      hide Faithful, Replay, Level, Available;
      if e.Decided? {
        AvailableAfter(Replay(front), e, s, now);
      }
      if About(e, s) {
        LevelDraws(log, s, now);
      } else {
        LevelPasses(log, s, now);
      }
    }
  }

  lemma LevelPasses(log: seq<Event>, s: Source, now: int)
    requires log != [] && now >= log[|log| - 1].at && !About(log[|log| - 1], s)
    requires Level(log[..|log| - 1], s, now)
    requires Available(Replay(log), s, now) == Available(Replay(log[..|log| - 1]), s, now)
    ensures Level(log, s, now)
  {
    var k := |log| - 1;
    var front := log[..k];
    var level := Available(Replay(log), s, now);
    hide Replay, Available;
    forall a: nat | a < |log| && About(log[a], s) ensures a < k && Slack(log, a, s, now) == Slack(front, a, s, now) {
      SlackAfter(log, a, s, now);
    }
    forall a: nat | a < |log| && About(log[a], s) ensures level <= Slack(log, a, s, now) {
      assert About(front[a], s);
    }
    if level != 250_000_000 {
      var a: nat :| a < k && About(front[a], s) && level == Slack(front, a, s, now);
      assert About(log[a], s);
    }
  }

  /** A decision about s draws on the bucket and on every stretch alike. */
  lemma LevelDraws(log: seq<Event>, s: Source, now: int)
    requires log != [] && now >= log[|log| - 1].at && About(log[|log| - 1], s)
    requires Level(log[..|log| - 1], s, log[|log| - 1].at)
    requires var front, e := log[..|log| - 1], log[|log| - 1];
      var left := Available(Replay(front), s, e.at) - (if e.ok then 50_000_000 else 0) + (now - e.at);
      && Available(Replay(front), s, e.at) <= 250_000_000
      && Available(Replay(log), s, now) == if left > 250_000_000 then 250_000_000 else left
    ensures Level(log, s, now)
  {
    var k := |log| - 1;
    var front, e := log[..k], log[k];
    var before, level := Available(Replay(front), s, e.at), Available(Replay(log), s, now);
    hide Replay, Available;
    SlackAfter(log, k, s, now);
    forall a: nat | a < k && About(log[a], s)
      ensures level <= Slack(log, a, s, now)
      ensures Slack(log, a, s, now) == Slack(front, a, s, e.at) + (now - e.at) - if e.ok then 50_000_000 else 0
    {
      SlackAfter(log, a, s, now);
      assert About(front[a], s);
    }
    if level != 250_000_000 {
      if before == 250_000_000 {
        assert level == Slack(log, k, s, now);
      } else {
        var a: nat :| a < k && About(front[a], s) && before == Slack(front, a, s, e.at);
        assert About(log[a], s) && level == Slack(log, a, s, now);
      }
    }
  }

  /** A source is refused exactly when it has overspent. */
  lemma RefusedExactly(log: seq<Event>, s: Source, now: int)
    requires Faithful(log) && Ordered(log) && (log != [] ==> now >= log[|log| - 1].at)
    ensures Permits(Replay(log), s, now) <==> !Overspent(log, s, now)
  {
    LevelHolds(log, s, now);
    hide Replay, Faithful, Slack, Refilled;
  }

  /** Who is decided about is refused exactly when it has overspent, and who finds no room has not. */
  ghost predicate Deserved(log: seq<Event>, i: nat)
    requires i < |log|
  {
    && (log[i].Decided? ==> (log[i].ok <==> !Overspent(log[..i], log[i].source, log[i].at)))
    && (log[i].Crowded? ==> !Overspent(log[..i], log[i].source, log[i].at))
  }

  lemma IsDeserved(log: seq<Event>, i: nat)
    requires Faithful(log) && Ordered(log) && i < |log|
    ensures Deserved(log, i)
  {
    assert Right(Replay(log[..i]), log[i]);
    FaithfulPrefix(log, i);
    hide Faithful, Replay, Overspent, Permits;
    if log[i].Decided? || log[i].Crowded? {
      RefusedExactly(log[..i], log[i].source, log[i].at);
    }
  }

  // ---- The table ------------------------------------------------------------------------

  /** An entry keeps eight address bytes, the last four of them zero for IPv4. */
  datatype Entry = Entry(vnet: int, ip: u64, last: int, tokens: nat, ghost source: Source)

  /** The eight bytes of a key. */
  function Bytes(s: Source): u64 {
    match s
    case V4(_, ip) => ip * 0x1_0000_0000
    case V6(_, net) => net
  }

  /** The first n bytes of a key. */
  function Leading(ip: u64, n: nat): int { if n == 4 then ip / 0x1_0000_0000 else ip }

  function Len(s: Source): nat { if s.V4? then 4 else 8 }

  /** The comparison and the hash cover as many bytes as the family of the packet at hand has. */
  predicate Matches(e: Entry, s: Source) { e.vnet == s.vnet && Leading(e.ip, Len(s)) == Leading(Bytes(s), Len(s)) }

  function SourceOf(vnet: int, a: Address): Source
    requires !a.Other?
  {
    match a
    case Inet(ip) => V4(vnet, ip)
    case Inet6(upper, _) => V6(vnet, upper)
  }

  lemma MatchesOwn(e: Entry, s: Source)
    requires e.vnet == e.source.vnet && e.ip == Bytes(e.source)
    ensures e.source == s ==> Matches(e, s)
    ensures Matches(e, s) && Len(e.source) == Len(s) ==> e.source == s
  {
  }

  type Hash = (int, nat, int) -> nat

  function BucketOf(hash: Hash, s: Source): (i: nat)
    ensures i < RATELIMIT_SIZE
  {
    hash(s.vnet, Len(s), Leading(Bytes(s), Len(s))) % RATELIMIT_SIZE
  }

  ghost predicate InPlace(hash: Hash, live: map<Source, Entry>, i: nat, e: Entry) {
    && e.vnet == e.source.vnet && e.ip == Bytes(e.source) && BucketOf(hash, e.source) == i
    && e.source in live && live[e.source] == e
  }

  ghost predicate BucketOk(hash: Hash, live: map<Source, Entry>, i: nat, list: seq<Entry>) {
    && (forall e <- list :: InPlace(hash, live, i, e))
    && (forall j, k :: 0 <= j < k < |list| ==> list[j].source != list[k].source)
  }

  /** The buckets hold the live entries, each in its place and each once. */
  ghost predicate Filed(hash: Hash, live: map<Source, Entry>, table: seq<seq<Entry>>) {
    && |table| == RATELIMIT_SIZE
    && (forall i :: 0 <= i < RATELIMIT_SIZE ==> BucketOk(hash, live, i, table[i]))
    && (forall s <- live :: live[s].source == s && live[s] in table[BucketOf(hash, s)])
  }

  function Without(list: seq<Entry>, j: nat): seq<Entry>
    requires j < |list|
  {
    list[..j] + list[j + 1..]
  }

  function Replaced(list: seq<Entry>, j: nat, e: Entry): seq<Entry>
    requires j < |list|
  {
    list[j := e]
  }

  lemma WithoutMembers(list: seq<Entry>, j: nat)
    requires j < |list| && forall p, q :: 0 <= p < q < |list| ==> list[p].source != list[q].source
    ensures forall e :: e in Without(list, j) <==> e in list && e.source != list[j].source
    ensures forall p, q :: 0 <= p < q < |Without(list, j)| ==> Without(list, j)[p].source != Without(list, j)[q].source
  {
    var w := Without(list, j);
    forall e | e in list && e.source != list[j].source ensures e in w {
      var p :| 0 <= p < |list| && list[p] == e;
      assert e == w[if p < j then p else p - 1];
    }
  }

  ghost predicate OthersKept(live: map<Source, Entry>, live': map<Source, Entry>, source: Source) {
    forall s :: s != source ==> (s in live <==> s in live') && (s in live ==> live[s] == live'[s])
  }

  lemma OtherBucket(hash: Hash, live: map<Source, Entry>, live': map<Source, Entry>, k: nat, list: seq<Entry>,
                    source: Source)
    requires BucketOk(hash, live, k, list) && OthersKept(live, live', source) && BucketOf(hash, source) != k
    ensures BucketOk(hash, live', k, list)
  {
    hide BucketOf;
    forall e | e in list ensures InPlace(hash, live', k, e) {
      assert InPlace(hash, live, k, e);
    }
  }

  /** Filing is settled bucket by bucket: a change at one source concerns its bucket alone. */
  lemma Refiled(hash: Hash, live: map<Source, Entry>, live': map<Source, Entry>, table: seq<seq<Entry>>,
                source: Source, list: seq<Entry>)
    requires Filed(hash, live, table) && OthersKept(live, live', source)
    requires BucketOk(hash, live', BucketOf(hash, source), list)
    requires forall e <- table[BucketOf(hash, source)] :: e.source == source || e in list
    requires source in live' ==> live'[source].source == source && live'[source] in list
    ensures Filed(hash, live', table[BucketOf(hash, source) := list])
  {
    var i := BucketOf(hash, source);
    var table' := table[i := list];
    forall k | 0 <= k < RATELIMIT_SIZE ensures BucketOk(hash, live', k, table'[k]) {
      if k != i {
        OtherBucket(hash, live, live', k, table[k], source);
      }
    }
    hide BucketOf, BucketOk;
    forall s | s in live' ensures live'[s].source == s && live'[s] in table'[BucketOf(hash, s)] {
      if s != source {
        assert live[s].source == s && live[s] in table[BucketOf(hash, s)];
      }
    }
  }

  lemma RemoveKeeps(hash: Hash, live: map<Source, Entry>, table: seq<seq<Entry>>, i: nat, j: nat)
    requires Filed(hash, live, table) && i < RATELIMIT_SIZE && j < |table[i]|
    ensures table[i][j].source in live
    ensures Filed(hash, live - {table[i][j].source}, table[i := Without(table[i], j)])
  {
    var e := table[i][j];
    assert BucketOk(hash, live, i, table[i]);
    assert InPlace(hash, live, i, e);
    WithoutMembers(table[i], j);
    hide Without, BucketOf;
    Refiled(hash, live, live - {e.source}, table, e.source, Without(table[i], j));
  }

  lemma UpdateKeeps(hash: Hash, live: map<Source, Entry>, table: seq<seq<Entry>>, i: nat, j: nat, e: Entry)
    requires Filed(hash, live, table) && i < RATELIMIT_SIZE && j < |table[i]|
    requires e.source == table[i][j].source && e.vnet == table[i][j].vnet && e.ip == table[i][j].ip
    ensures Filed(hash, live[e.source := e], table[i := table[i][j := e]])
  {
    var list := table[i];
    assert BucketOk(hash, live, i, list);
    assert InPlace(hash, live, i, list[j]);
    UpdateMembers(list, j, e);
    hide BucketOf;
    var list' := list[j := e];
    forall d | d in list' ensures InPlace(hash, live[e.source := e], i, d) {
      if d != e {
        assert InPlace(hash, live, i, d);
      }
    }
    Refiled(hash, live, live[e.source := e], table, e.source, list');
  }

  lemma UpdateMembers(list: seq<Entry>, j: nat, e: Entry)
    requires j < |list| && forall p, q :: 0 <= p < q < |list| ==> list[p].source != list[q].source
    requires e.source == list[j].source
    ensures var w := list[j := e];
      && (forall d :: d in w <==> d == e || (d in list && d.source != e.source))
      && forall p, q :: 0 <= p < q < |w| ==> w[p].source != w[q].source
  {
    var w := list[j := e];
    assert w[j] == e;
    forall d | d in list && d.source != e.source ensures d in w {
      var p :| 0 <= p < |list| && list[p] == d;
      assert w[p] == d;
    }
  }

  lemma InsertKeeps(hash: Hash, live: map<Source, Entry>, table: seq<seq<Entry>>, e: Entry)
    requires Filed(hash, live, table) && e.source !in live && e.vnet == e.source.vnet && e.ip == Bytes(e.source)
    ensures var i := BucketOf(hash, e.source); Filed(hash, live[e.source := e], table[i := [e] + table[i]])
  {
    var i := BucketOf(hash, e.source);
    assert BucketOk(hash, live, i, table[i]);
    hide BucketOf;
    forall d | d in table[i] ensures d.source != e.source && InPlace(hash, live[e.source := e], i, d) {
      assert InPlace(hash, live, i, d);
    }
    assert forall p :: 0 <= p < |table[i]| ==> table[i][p] in table[i];
    Refiled(hash, live, live[e.source := e], table, e.source, [e] + table[i]);
  }

  /** What is live is what the unforgotten buckets hold, what is not has been idle too long to matter,
      and every decision was that of the unforgotten bucket. */
  ghost predicate Remembers(live: map<Source, Entry>, clock: int, log: seq<Event>) {
    && Ordered(log) && (log != [] ==> log[|log| - 1].at <= clock) && Faithful(log)
    && (forall s <- live :: s in Replay(log) && Replay(log)[s] == Bucket(live[s].tokens, live[s].last))
    && (forall s <- Replay(log) :: s in live || Replay(log)[s].last + IDLE < clock)
  }

  ghost predicate NotAhead(live: map<Source, Entry>, clock: int) {
    forall s <- live :: live[s].last <= clock && live[s].tokens <= TOKEN_MAX
  }

  /** Some idle entries are gone, and nothing else. */
  ghost predicate Thinned(before: map<Source, Entry>, after: map<Source, Entry>, expiry: int, force: bool) {
    && (forall s <- after :: s in before && after[s] == before[s])
    && (forall s <- before :: s in after || before[s].last < expiry || force)
  }

  ghost predicate Young(list: seq<Entry>, expiry: int, force: bool) {
    forall e <- list :: !(e.last < expiry || force)
  }

  function Survivors(live: map<Source, Entry>, expiry: int, force: bool): map<Source, Entry> {
    map s | s in live && !(live[s].last < expiry || force) :: live[s]
  }

  lemma FiledEntry(hash: Hash, live: map<Source, Entry>, table: seq<seq<Entry>>, i: nat, j: nat)
    requires Filed(hash, live, table) && i < RATELIMIT_SIZE && j < |table[i]|
    ensures InPlace(hash, live, i, table[i][j])
  {
    assert BucketOk(hash, live, i, table[i]);
  }

  lemma AllSurvive(hash: Hash, before: map<Source, Entry>, live: map<Source, Entry>, table: seq<seq<Entry>>,
                   expiry: int, force: bool)
    requires Filed(hash, live, table) && Thinned(before, live, expiry, force)
    requires forall k :: 0 <= k < RATELIMIT_SIZE ==> Young(table[k], expiry, force)
    ensures live == Survivors(before, expiry, force)
  {
    forall s | s in live ensures !(live[s].last < expiry || force) {
      assert live[s] in table[BucketOf(hash, s)];
      assert Young(table[BucketOf(hash, s)], expiry, force);
    }
  }

  lemma SurvivorsAre(live: map<Source, Entry>, expiry: int, force: bool, clock: int, now: int)
    requires NotAhead(live, clock) && now >= clock
    ensures NotAhead(Survivors(live, expiry, force), now) && NotAhead(live, now)
  {
  }

  lemma SurvivorsEnd(live: map<Source, Entry>, expiry: int, force: bool)
    ensures Survivors(live, expiry, true) == map[] && |Survivors(live, expiry, force)| <= |live|
    ensures |live| == 0 ==> Survivors(live, expiry, force) == live
  {
    var t := Survivors(live, expiry, force);
    Smaller(t.Keys, live.Keys);
    assert |t.Keys| == |t| && |live.Keys| == |live|;
  }

  lemma Smaller(a: set<Source>, b: set<Source>)
    requires a <= b
    ensures |a| <= |b|
  {
    assert b == a + (b - a);
  }

  /** Forgetting entries that were idle for a second changes nothing that matters. */
  lemma CollectionInvisible(live: map<Source, Entry>, clock: int, log: seq<Event>, now: int)
    requires Remembers(live, clock, log) && now >= clock
    ensures Remembers(Survivors(live, now - IDLE, false), now, log + [Collected(now)])
  {
    hide Faithful, Replay;
    LogGrows(live, clock, log, Collected(now), live);
  }

  function Verdict(e: Entry, now: int): Errno {
    if Refilled(Bucket(e.tokens, e.last), now) >= INITIATION_COST then Ok else ECONNREFUSED
  }

  function Charged(e: Entry, now: int): Entry {
    var available := Refilled(Bucket(e.tokens, e.last), now);
    e.(last := now, tokens := if available >= INITIATION_COST then available - INITIATION_COST else available)
  }

  lemma ChargedNotAhead(live: map<Source, Entry>, clock: int, s: Source, now: int)
    requires NotAhead(live, clock) && s in live && now >= clock
    ensures NotAhead(live[s := Charged(live[s], now)], now)
  {
  }

  lemma MustMatch(hash: Hash, live: map<Source, Entry>, table: seq<seq<Entry>>, s: Source)
    requires Filed(hash, live, table)
    ensures s in live ==> exists j :: 0 <= j < |table[BucketOf(hash, s)]| && Matches(table[BucketOf(hash, s)][j], s)
  {
    if s in live {
      var list := table[BucketOf(hash, s)];
      assert BucketOk(hash, live, BucketOf(hash, s), list);
      hide BucketOf, Matches, BucketOk, Filed;
      var j :| 0 <= j < |list| && list[j] == live[s];
      assert InPlace(hash, live, BucketOf(hash, s), live[s]);
      MatchesOwn(live[s], s);
    }
  }

  lemma FaithfulGrows(log: seq<Event>, e: Event)
    requires Faithful(log) && Right(Replay(log), e)
    ensures Faithful(log + [e])
  {
    var log' := log + [e];
    hide Right, Replay;
    forall i | 0 <= i < |log'| ensures Right(Replay(log'[..i]), log'[i]) {
      assert log'[..i] == log[..i];
      assert i == |log| ==> log[..i] == log;
    }
  }

  lemma ReplayGrows(log: seq<Event>, e: Event)
    ensures Replay(log + [e]) == Next(Replay(log), e)
  {
    assert (log + [e])[..|log|] == log;
  }

  /** One more event: the sources that it does not decide about stay as they are. */
  lemma LogGrows(live: map<Source, Entry>, clock: int, log: seq<Event>, e: Event, live': map<Source, Entry>)
    requires Remembers(live, clock, log) && e.at >= clock && Right(Replay(log), e)
    requires if !e.Decided? then live' == live
      else e.source in live' && live' == live[e.source := live'[e.source]]
    requires e.Decided? ==>
      Bucket(live'[e.source].tokens, live'[e.source].last) == Spend(Replay(log), e.source, e.at)[e.source]
    ensures Remembers(live', e.at, log + [e])
  {
    hide Faithful, Replay, Permits, Spend;
    ReplayGrows(log, e);
    FaithfulGrows(log, e);
    if e.Decided? {
      Touch(Replay(log), e.source, e.at);
    }
  }

  /** The own entry of a source gives the decision of its unforgotten bucket. */
  lemma OwnVerdict(live: map<Source, Entry>, clock: int, log: seq<Event>, s: Source, now: int)
    requires Remembers(live, clock, log) && s in live
    ensures Permits(Replay(log), s, now) <==> Verdict(live[s], now) == Ok
    ensures var c := Charged(live[s], now); Bucket(c.tokens, c.last) == Spend(Replay(log), s, now)[s]
  {
    hide Faithful, Replay;
  }

  /** A source without an entry has a full bucket: it is new, or was idle for more than a second. */
  lemma FullBucket(live: map<Source, Entry>, clock: int, log: seq<Event>, s: Source, now: int)
    requires Remembers(live, clock, log) && s !in live && now >= clock
    ensures Permits(Replay(log), s, now) && Spend(Replay(log), s, now)[s] == Bucket(TOKEN_MAX - INITIATION_COST, now)
  {
    hide Faithful, Replay;
  }

  lemma ThinnedTwice(a: map<Source, Entry>, b: map<Source, Entry>, c: map<Source, Entry>, expiry: int, force: bool)
    requires Thinned(a, b, expiry, force) && Thinned(b, c, expiry, force)
    ensures Thinned(a, c, expiry, force)
  {
  }

  lemma ThinnedMore(a: map<Source, Entry>, b: map<Source, Entry>, e: Entry, expiry: int, force: bool)
    requires Thinned(a, b, expiry, force) && e.source in b && b[e.source] == e && (e.last < expiry || force)
    ensures Thinned(a, b - {e.source}, expiry, force)
  {
  }

  // ---- The whole state ------------------------------------------------------------------

  /** What a limiter has been through: its live entries, the time, and what has happened so far. */
  datatype History = History(live: map<Source, Entry>, clock: int, log: seq<Event>)

  datatype State = State(table: seq<seq<Entry>>, past: History)

  /** The sources in one table are all of one address family. */
  ghost predicate OneFamily(v4: bool, live: map<Source, Entry>) { forall s <- live :: s.V4? == v4 }

  ghost predicate Good(hash: Hash, v4: bool, table: seq<seq<Entry>>, past: History) {
    && Filed(hash, past.live, table) && NotAhead(past.live, past.clock) && OneFamily(v4, past.live)
    && Remembers(past.live, past.clock, past.log)
  }

  /** The first entry that matches, or the length of the list. */
  function FirstMatch(list: seq<Entry>, s: Source): (j: nat)
    ensures j <= |list|
    ensures j < |list| ==> Matches(list[j], s)
    ensures forall k :: 0 <= k < j ==> !Matches(list[k], s)
  {
    if list == [] || Matches(list[0], s) then 0 else 1 + FirstMatch(list[1..], s)
  }

  /** The entry for a source that has none yet; `room` says that there is memory for it and the table is not full. */
  function NewEntry(s: Source, now: int): Entry { Entry(s.vnet, Bytes(s), now, TOKEN_MAX - INITIATION_COST, s) }

  function Served(list: seq<Entry>, s: Source, now: int, room: bool): Errno {
    var j := FirstMatch(list, s);
    if j < |list| then Verdict(list[j], now) else if room then Ok else ECONNREFUSED
  }

  /** Entry j of bucket i is charged for source s. */
  ghost function ChargedState(w: State, s: Source, i: nat, j: nat, now: int): State
    requires i < |w.table| && j < |w.table[i]|
  {
    var e := w.table[i][j];
    State(w.table[i := Replaced(w.table[i], j, Charged(e, now))],
          History(w.past.live[s := Charged(e, now)], now, w.past.log + [Decided(s, now, Verdict(e, now) == Ok)]))
  }

  ghost function StartedState(w: State, s: Source, i: nat, now: int): State
    requires i < |w.table|
  {
    var e := NewEntry(s, now);
    State(w.table[i := [e] + w.table[i]], History(w.past.live[s := e], now, w.past.log + [Decided(s, now, true)]))
  }

  ghost function CrowdedState(w: State, s: Source, now: int): State {
    State(w.table, w.past.(clock := now, log := w.past.log + [Crowded(s, now)]))
  }

  /** What a decision about source s leaves behind. */
  ghost function After(hash: Hash, w: State, s: Source, now: int, room: bool): State
    requires |w.table| == RATELIMIT_SIZE
  {
    var i := BucketOf(hash, s);
    var j := FirstMatch(w.table[i], s);
    if j < |w.table[i]| then ChargedState(w, s, i, j, now)
    else if room then StartedState(w, s, i, now)
    else CrowdedState(w, s, now)
  }

  /** In a table of one family an entry that matches a source is its own. */
  lemma OwnEntry(hash: Hash, v4: bool, w: State, s: Source, j: nat)
    requires Good(hash, v4, w.table, w.past) && s.V4? == v4
    requires j < |w.table[BucketOf(hash, s)]| && Matches(w.table[BucketOf(hash, s)][j], s)
    ensures s in w.past.live && w.past.live[s] == w.table[BucketOf(hash, s)][j]
  {
    var i := BucketOf(hash, s);
    FiledEntry(hash, w.past.live, w.table, i, j);
    hide Filed, BucketOf, Matches, Remembers;
    MatchesOwn(w.table[i][j], s);
  }

  lemma ChargedGood(hash: Hash, v4: bool, w: State, s: Source, i: nat, j: nat, now: int)
    requires Good(hash, v4, w.table, w.past) && now >= w.past.clock && i < RATELIMIT_SIZE && j < |w.table[i]|
    requires s in w.past.live && w.past.live[s] == w.table[i][j]
    ensures var w' := ChargedState(w, s, i, j, now);
      Good(hash, v4, w'.table, w'.past) && |w'.past.live| == |w.past.live|
  {
    assert |w.table| == RATELIMIT_SIZE;
    hide Remembers, NotAhead, Charged, Verdict, Permits, Spend, Replay;
    var e := w.table[i][j];
    FiledEntry(hash, w.past.live, w.table, i, j);
    assert e.source == s;
    hide Filed;
    SameKey(e, now);
    UpdateKeeps(hash, w.past.live, w.table, i, j, Charged(e, now));
    ChargedNotAhead(w.past.live, w.past.clock, s, now);
    OwnVerdict(w.past.live, w.past.clock, w.past.log, s, now);
    var live' := w.past.live[s := Charged(e, now)];
    LogGrows(w.past.live, w.past.clock, w.past.log, Decided(s, now, Verdict(e, now) == Ok), live');
  }

  lemma ChargedTable(w: State, s: Source, i: nat, j: nat, now: int)
    requires i < |w.table| && j < |w.table[i]|
    ensures ChargedState(w, s, i, j, now).table == w.table[i := Replaced(w.table[i], j, Charged(w.table[i][j], now))]
  {
  }

  lemma SameKey(e: Entry, now: int)
    ensures Charged(e, now).source == e.source && Charged(e, now).vnet == e.vnet && Charged(e, now).ip == e.ip
  {
  }

  lemma EntryBounds(hash: Hash, v4: bool, w: State, i: nat, j: nat, now: int)
    requires Good(hash, v4, w.table, w.past) && now >= w.past.clock && i < RATELIMIT_SIZE && j < |w.table[i]|
    ensures w.table[i][j].last <= now && w.table[i][j].tokens <= TOKEN_MAX && w.table[i][j].source in w.past.live
  {
    FiledEntry(hash, w.past.live, w.table, i, j);
  }

  lemma StartedGood(hash: Hash, v4: bool, w: State, s: Source, now: int)
    requires Good(hash, v4, w.table, w.past) && now >= w.past.clock && s !in w.past.live && s.V4? == v4
    ensures var w' := StartedState(w, s, BucketOf(hash, s), now);
      Good(hash, v4, w'.table, w'.past) && |w'.past.live| == |w.past.live| + 1
  {
    assert |w.table| == RATELIMIT_SIZE;
    hide Filed, BucketOf, Remembers, Permits, Spend, Replay;
    InsertKeeps(hash, w.past.live, w.table, NewEntry(s, now));
    assert NotAhead(w.past.live[s := NewEntry(s, now)], now);
    FullBucket(w.past.live, w.past.clock, w.past.log, s, now);
    hide NotAhead;
    LogGrows(w.past.live, w.past.clock, w.past.log, Decided(s, now, true), w.past.live[s := NewEntry(s, now)]);
  }

  lemma CrowdedGood(hash: Hash, v4: bool, w: State, s: Source, now: int)
    requires Good(hash, v4, w.table, w.past) && now >= w.past.clock && s !in w.past.live
    ensures Good(hash, v4, w.table, CrowdedState(w, s, now).past)
  {
    hide Filed, Remembers, Permits, Spend, Replay;
    FullBucket(w.past.live, w.past.clock, w.past.log, s, now);
    LogGrows(w.past.live, w.past.clock, w.past.log, Crowded(s, now), w.past.live);
  }

  /** What a collection leaves of the past: all that matters, or, when it is forced, nothing. */
  ghost function Outlived(past: History, force: bool, now: int): History {
    if force then History(map[], now, [])
    else History(Survivors(past.live, now - IDLE, false), now, past.log + [Collected(now)])
  }

  lemma GoodIsFiled(hash: Hash, v4: bool, w: State)
    requires Good(hash, v4, w.table, w.past)
    ensures |w.table| == RATELIMIT_SIZE && Filed(hash, w.past.live, w.table)
  {
  }

  lemma CollectedGood(hash: Hash, v4: bool, w: State, table: seq<seq<Entry>>, force: bool, now: int)
    requires Good(hash, v4, w.table, w.past) && now >= w.past.clock
    requires Filed(hash, Survivors(w.past.live, now - IDLE, force), table)
    ensures Outlived(w.past, force, now).live == Survivors(w.past.live, now - IDLE, force)
    ensures Good(hash, v4, table, Outlived(w.past, force, now))
  {
    hide Filed;
    SurvivorsEnd(w.past.live, now - IDLE, force);
    SurvivorsAre(w.past.live, now - IDLE, false, w.past.clock, now);
    hide NotAhead;
    if force {
      EmptyGood(hash, v4, table, now);
    } else {
      CollectionInvisible(w.past.live, w.past.clock, w.past.log, now);
    }
  }

  /** What has not been idle for more than a second stays. */
  lemma IdleGo(past: History, now: int)
    ensures forall s :: s in Outlived(past, false, now).live <==>
      s in past.live && now - past.live[s].last <= 1_000_000_000
  {
  }

  lemma EmptyGood(hash: Hash, v4: bool, table: seq<seq<Entry>>, now: int)
    requires Filed(hash, map[], table)
    ensures Good(hash, v4, table, History(map[], now, []))
  {
  }

  /** The decision is that of the unforgotten bucket exactly when the source is known or there is room;
      without room a source is refused that would be allowed. */
  lemma DecidedRightly(hash: Hash, v4: bool, w: State, s: Source, now: int, room: bool)
    requires Good(hash, v4, w.table, w.past) && now >= w.past.clock && s.V4? == v4
    ensures var served, ideal := Served(w.table[BucketOf(hash, s)], s, now, room), Permits(Replay(w.past.log), s, now);
      && (served == Ok || served == ECONNREFUSED) && ((served == Ok <==> ideal) <==> s in w.past.live || room)
      && After(hash, w, s, now, room).past.log ==
        w.past.log + [if s in w.past.live || room then Decided(s, now, served == Ok) else Crowded(s, now)]
  {
    var list := w.table[BucketOf(hash, s)];
    var j := FirstMatch(list, s);
    MustMatch(hash, w.past.live, w.table, s);
    if j < |list| {
      OwnEntry(hash, v4, w, s, j);
      hide Filed, BucketOf, Matches, Permits, Replay;
      OwnVerdict(w.past.live, w.past.clock, w.past.log, s, now);
    } else {
      assert s !in w.past.live;
      hide Filed, BucketOf, Matches, Permits, Replay;
      FullBucket(w.past.live, w.past.clock, w.past.log, s, now);
    }
  }

  predicate NoRoom(live: map<Source, Entry>, s: Source) { s !in live && |live| >= RATELIMIT_SIZE_MAX }

  lemma AfterClock(hash: Hash, w: State, s: Source, now: int, room: bool)
    requires |w.table| == RATELIMIT_SIZE
    ensures After(hash, w, s, now, room).past.clock == now
  {
  }

  /** What the log says of a packet and its answer. */
  predicate Records(e: Event, vnet: int, a: Address, now: int, rc: Errno) {
    if a.Other? then e == Foreign(now) && rc == EAFNOSUPPORT
    else
      || (e == Decided(SourceOf(vnet, a), now, rc == Ok) && (rc == Ok || rc == ECONNREFUSED))
      || (e == Crowded(SourceOf(vnet, a), now) && rc == ECONNREFUSED)
  }

  /** One of the two tables; `v4` is the address family that its callers have. */
  class RateLimiter {
    const hash: Hash
    ghost const v4: bool
    var table: seq<seq<Entry>>
    var num: nat
    ghost var past: History

    ghost predicate Valid()
      reads this
    {
      Good(hash, v4, table, past) && num == |past.live| <= RATELIMIT_SIZE_MAX
    }

    constructor (hash: Hash, ghost v4: bool, now: int)
      ensures Valid() && past == History(map[], now, []) && this.hash == hash && this.v4 == v4
    {
      this.hash, this.v4 := hash, v4;
      table := seq(RATELIMIT_SIZE, _ => []);
      num, past := 0, History(map[], now, []);
    }

    // ---- Collection ---------------------------------------------------------------------

    method Remove(i: nat, j: nat)
      requires i < RATELIMIT_SIZE == |table| && j < |table[i]| && Filed(hash, past.live, table) && num == |past.live|
      modifies this`num, this`past, this`table
      ensures Filed(hash, past.live, table) && num == |past.live|
      ensures past == old(past).(live := old(past).live - {old(table[i][j]).source})
      ensures table == old(table)[i := Without(old(table[i]), j)]
    {
      RemoveKeeps(hash, past.live, table, i, j);
      hide Filed;
      ghost var e := table[i][j];
      num := num - 1;
      ghost var t := table;
      table := table[i := Without(table[i], j)];
      past := past.(live := past.live - {e.source});
      assert table == t[i := Without(t[i], j)];
    }

    /** Drops the idle entries of one bucket. */
    method Sweep(i: nat, expiry: int, force: bool)
      requires i < RATELIMIT_SIZE == |table| && Filed(hash, past.live, table) && num == |past.live|
      modifies this`num, this`past, this`table
      ensures |table| == RATELIMIT_SIZE && Filed(hash, past.live, table) && num == |past.live|
      ensures forall k :: 0 <= k < RATELIMIT_SIZE && k != i ==> table[k] == old(table[k])
      ensures Young(table[i], expiry, force)
      ensures past == old(past).(live := past.live) && Thinned(old(past).live, past.live, expiry, force)
    {
      hide Filed, BucketOf;
      var j := 0;
      while j < |table[i]|
        invariant |table| == RATELIMIT_SIZE && j <= |table[i]| && Filed(hash, past.live, table) && num == |past.live|
        invariant forall k :: 0 <= k < RATELIMIT_SIZE && k != i ==> table[k] == old(table[k])
        invariant forall k :: 0 <= k < j ==> !(table[i][k].last < expiry || force)
        invariant past == old(past).(live := past.live) && Thinned(old(past).live, past.live, expiry, force)
        decreases |table[i]| - j
      {
        var e := table[i][j];
        if e.last < expiry || force {
          FiledEntry(hash, past.live, table, i, j);
          ThinnedMore(old(past).live, past.live, e, expiry, force);
          Remove(i, j);
        } else {
          j := j + 1;
        }
      }
    }

    method SweepAll(expiry: int, force: bool)
      requires |table| == RATELIMIT_SIZE && Filed(hash, past.live, table) && num == |past.live|
      modifies this`num, this`past, this`table
      ensures Filed(hash, past.live, table) && num == |past.live|
      ensures past == old(past).(live := Survivors(old(past).live, expiry, force))
    {
      hide Filed, Young, Survivors;
      ghost var before := past.live;
      var i := 0;
      while i < RATELIMIT_SIZE
        invariant 0 <= i <= RATELIMIT_SIZE == |table| && Filed(hash, past.live, table) && num == |past.live|
        invariant forall k :: 0 <= k < i ==> Young(table[k], expiry, force)
        invariant past == old(past).(live := past.live) && Thinned(before, past.live, expiry, force)
      {
        ghost var middle := past.live;
        Sweep(i, expiry, force);
        ThinnedTwice(before, middle, past.live, expiry, force);
        i := i + 1;
      }
      AllSurvive(hash, before, past.live, table, expiry, force);
    }

    /** The early return for an empty table changes nothing. */
    method SweepSome(expiry: int, force: bool)
      requires |table| == RATELIMIT_SIZE && Filed(hash, past.live, table) && num == |past.live|
      modifies this`num, this`past, this`table
      ensures Filed(hash, past.live, table) && num == |past.live| <= old(num)
      ensures past == old(past).(live := Survivors(old(past).live, expiry, force))
    {
      hide Filed, Survivors;
      SurvivorsEnd(past.live, expiry, force);
      if num > 0 {
        SweepAll(expiry, force);
      }
    }

    /** One collection; the timer may call it at any time. A forced one leaves a limiter that is as new. */
    method Gc(now: int, force: bool)
      requires Valid() && now >= past.clock
      modifies this`num, this`past, this`table
      ensures Valid() && num <= old(num) && past == Outlived(old(past), force, now)
    {
      hide Good, Filed, Survivors, Outlived;
      ghost var w := State(table, past);
      GoodIsFiled(hash, v4, w);
      SweepSome(now - IDLE, force);
      CollectedGood(hash, v4, w, table, force, now);
      past := Outlived(w.past, force, now);
    }

    // ---- Admission ----------------------------------------------------------------------

    /** The first entry of the bucket whose bytes match, or the length of the bucket. */
    method Find(i: nat, s: Source) returns (j: nat)
      requires i < RATELIMIT_SIZE == |table|
      ensures j == FirstMatch(table[i], s)
    {
      hide Matches;
      var list := table[i];
      j := 0;
      while j < |list| && !Matches(list[j], s)
        invariant j <= |list| && FirstMatch(list, s) == j + FirstMatch(list[j..], s)
      {
        assert list[j..][1..] == list[j + 1..];
        j := j + 1;
      }
    }

    /** Decides about an initiation from this address, and accounts for it. */
    method Allow(vnet: int, a: Address, now: int, alloc: bool) returns (rc: Errno)
      requires Valid() && now >= past.clock && (!a.Other? ==> a.Inet? == v4)
      modifies this`table, this`num, this`past
      ensures Valid() && |table| == |old(table)| == RATELIMIT_SIZE
      ensures a.Other? ==> rc == ECONNREFUSED && past == old(past) && table == old(table) && num == old(num)
      ensures !a.Other? ==> var s, room := SourceOf(vnet, a), old(num) < RATELIMIT_SIZE_MAX && alloc;
        && rc == Served(old(table)[BucketOf(hash, s)], s, now, room)
        && State(table, past) == After(hash, State(old(table), old(past)), s, now, room)
    {
      assert |table| == RATELIMIT_SIZE;
      if a.Other? {
        return ECONNREFUSED;
      }
      var s := SourceOf(vnet, a);
      var i := BucketOf(hash, s);
      ghost var w := State(table, past);
      MustMatch(hash, past.live, table, s);
      hide Good, BucketOf, Matches, ChargedState, StartedState, Verdict;
      var j := Find(i, s);
      if j < |table[i]| {
        OwnEntry(hash, v4, w, s, j);
        rc := AllowKnown(s, i, j, now);
        return;
      }
      assert s !in past.live;
      if num >= RATELIMIT_SIZE_MAX || !alloc {
        CrowdedGood(hash, v4, w, s, now);
        past := past.(clock := now, log := past.log + [Crowded(s, now)]);
        return ECONNREFUSED;
      }
      AllowNew(s, i, now);
      return Ok;
    }

    /** What a decision adds to the log, and what has to be true when there is no room. */
    method Decide(vnet: int, a: Address, now: int, alloc: bool) returns (rc: Errno, ghost e: Event)
      requires Valid() && now >= past.clock && !a.Other? && a.Inet? == v4
      modifies this`table, this`num, this`past
      ensures Valid() && past.log == old(past.log) + [e] && past.clock == now
      ensures Right(Replay(old(past.log)), e) && Records(e, vnet, a, now, rc) && !e.Foreign?
      ensures e.Crowded? && alloc ==> NoRoom(old(past.live), SourceOf(vnet, a))
    {
      ghost var w, room, s := State(table, past), num < RATELIMIT_SIZE_MAX && alloc, SourceOf(vnet, a);
      DecidedRightly(hash, v4, w, s, now, room);
      assert |table| == RATELIMIT_SIZE;
      hide Good, Served, After, BucketOf, Permits, Spend, Replay;
      rc := Allow(vnet, a, now, alloc);
      e := past.log[|w.past.log|];
      AfterClock(hash, w, s, now, room);
    }

    /** A decision in view of all that has happened, also in the other table. */
    method Join(vnet: int, a: Address, now: int, alloc: bool, ghost all: seq<Event>, ghost clock: int,
                ghost other: seq<Event>)
      returns (rc: Errno, ghost e: Event)
      requires Valid() && clock >= past.clock && now >= clock && !a.Other? && a.Inet? == v4
      requires Joint(all, clock, v4, past.log, other)
      modifies this`table, this`num, this`past
      ensures Valid() && past.clock == now && Records(e, vnet, a, now, rc)
      ensures Joint(all + [e], now, v4, past.log, other)
      ensures e.Crowded? && alloc ==> TooMany(all, e.source)
    {
      ghost var own, s := past.log, SourceOf(vnet, a);
      Crowding(this, all, clock, other, s);
      hide Valid, Right, Records, NoRoom, TooMany, Joint, Replay, SourceOf;
      rc, e := Decide(vnet, a, now, alloc);
      RecordsIts(e, vnet, a, now, rc);
      JointNext(all, clock, v4, own, other, e);
    }

    /** Spends a token of an entry, after refilling it for the time that has passed. */
    static method Charge(e: Entry, now: int) returns (rc: Errno, e': Entry)
      requires e.last <= now && e.tokens <= TOKEN_MAX
      ensures rc == Verdict(e, now) && e' == Charged(e, now)
    {
      var diff := now - e.last;
      e' := e.(last := now);
      var tokens := e.tokens + diff;
      if tokens > TOKEN_MAX {
        tokens := TOKEN_MAX;
      }
      if tokens >= INITIATION_COST {
        e' := e'.(tokens := tokens - INITIATION_COST);
        rc := Ok;
      } else {
        e' := e'.(tokens := tokens);
        rc := ECONNREFUSED;
      }
    }

    method AllowKnown(s: Source, i: nat, j: nat, now: int) returns (rc: Errno)
      requires Valid() && now >= past.clock && i < |table| == RATELIMIT_SIZE && j < |table[i]|
      requires s in past.live && past.live[s] == table[i][j]
      modifies this`table, this`past
      ensures Valid() && |table| == RATELIMIT_SIZE && rc == Verdict(old(table)[i][j], now)
      ensures State(table, past) == ChargedState(State(old(table), old(past)), s, i, j, now)
    {
      hide Good, Charged, Verdict, Replaced, ChargedState;
      ghost var w := State(table, past);
      ghost var w' := ChargedState(w, s, i, j, now);
      EntryBounds(hash, v4, w, i, j, now);
      ChargedGood(hash, v4, w, s, i, j, now);
      ChargedTable(w, s, i, j, now);
      var e;
      rc, e := Charge(table[i][j], now);
      table := table[i := Replaced(table[i], j, e)];
      past := w'.past;
    }

    method AllowNew(s: Source, i: nat, now: int)
      requires Valid() && now >= past.clock && i == BucketOf(hash, s) && |table| == RATELIMIT_SIZE
      requires s !in past.live && num < RATELIMIT_SIZE_MAX && s.V4? == v4
      modifies this`table, this`num, this`past
      ensures Valid() && num == old(num) + 1
      ensures State(table, past) == StartedState(State(old(table), old(past)), s, i, now)
    {
      hide Good, BucketOf;
      ghost var w := State(table, past);
      ghost var w' := StartedState(w, s, i, now);
      StartedGood(hash, v4, w, s, now);
      num := num + 1;
      table := table[i := [NewEntry(s, now)] + table[i]];
      past := w'.past;
      assert table == w'.table;
    }
  }

  // ---- Both tables ----------------------------------------------------------------------

  /** The sources that were ever decided about. */
  function Sources(log: seq<Event>): set<Source> { set e <- log | e.Decided? || e.Crowded? :: e.source }

  lemma {:induction false} ReplaySources(log: seq<Event>)
    ensures Replay(log).Keys <= Sources(log)
    decreases |log|
  {
    if log != [] {
      var front, e := log[..|log| - 1], log[|log| - 1];
      ReplaySources(front);
      assert log == front + [e] && e in log;
      assert Replay(log).Keys <= Replay(front).Keys + if e.Decided? then {e.source} else {};
      assert forall d <- front :: d in log;
      hide Replay;
    }
  }

  /** More sources than a table holds have been seen by now. */
  predicate TooMany(log: seq<Event>, s: Source) { |Sources(log) + {s}| > RATELIMIT_SIZE_MAX }

  /** The same buckets for one address family. */
  ghost predicate Agree(v4: bool, a: map<Source, Bucket>, b: map<Source, Bucket>) {
    forall s: Source :: s.V4? == v4 ==> (s in a <==> s in b) && (s in a ==> a[s] == b[s])
  }

  lemma SpendAgrees(v4: bool, a: map<Source, Bucket>, b: map<Source, Bucket>, s: Source, now: int)
    requires Agree(v4, a, b)
    ensures s.V4? == v4 ==> Permits(a, s, now) == Permits(b, s, now) && Agree(v4, Spend(a, s, now), Spend(b, s, now))
    ensures s.V4? != v4 ==> Agree(v4, Spend(a, s, now), b)
  {
    Touch(a, s, now);
    Touch(b, s, now);
    assert s.V4? == v4 ==> Available(a, s, now) == Available(b, s, now);
    hide Available;
  }

  /** An event concerns the family of its source only. */
  lemma AgreeNext(v4: bool, log: seq<Event>, own: seq<Event>, e: Event)
    requires Agree(v4, Replay(log), Replay(own))
    ensures (e.Decided? || e.Crowded?) && e.source.V4? == v4 ==> Right(Replay(log), e) == Right(Replay(own), e)
    ensures (e.Decided? ==> e.source.V4? == v4) ==> Agree(v4, Replay(log + [e]), Replay(own + [e]))
    ensures (e.Decided? ==> e.source.V4? != v4) ==> Agree(v4, Replay(log + [e]), Replay(own))
  {
    ReplayGrows(log, e);
    ReplayGrows(own, e);
    hide Spend, Replay, Permits, Agree;
    if e.Decided? || e.Crowded? {
      SpendAgrees(v4, Replay(log), Replay(own), e.source, e.at);
    }
  }

  /** The log of both tables, the one of a family and the one of the other family. */
  ghost predicate Joint(log: seq<Event>, clock: int, v4: bool, own: seq<Event>, other: seq<Event>) {
    && Ordered(log) && (log != [] ==> log[|log| - 1].at <= clock) && Faithful(log)
    && Agree(v4, Replay(log), Replay(own)) && Agree(!v4, Replay(log), Replay(other))
  }

  lemma JointNext(log: seq<Event>, clock: int, v4: bool, own: seq<Event>, other: seq<Event>, e: Event)
    requires Joint(log, clock, v4, own, other) && e.at >= clock && Right(Replay(own), e)
    requires (e.Decided? || e.Crowded?) && e.source.V4? == v4
    ensures Joint(log + [e], e.at, v4, own + [e], other)
  {
    hide Right, Replay, Faithful, Agree;
    AgreeNext(v4, log, own, e);
    AgreeNext(!v4, log, other, e);
    FaithfulGrows(log, e);
  }

  lemma QuietRight(state: map<Source, Bucket>, e: Event)
    requires e.Foreign? || e.Collected?
    ensures Right(state, e)
  {
  }

  /** An event that is no decision. */
  lemma JointNothing(log: seq<Event>, clock: int, v4: bool, own: seq<Event>, other: seq<Event>, e: Event)
    requires Joint(log, clock, v4, own, other) && e.at >= clock && (e.Foreign? || e.Collected?)
    ensures Joint(log + [e], e.at, v4, own, other) && Joint(log + [e], e.at, v4, own + [e], other)
  {
    hide Replay, Faithful, Agree, Right;
    QuietRight(Replay(log), e);
    AgreeNext(v4, log, own, e);
    AgreeNext(!v4, log, other, e);
    FaithfulGrows(log, e);
  }

  lemma LiveSeen(hash: Hash, v4: bool, w: State, log: seq<Event>, s: Source)
    requires Good(hash, v4, w.table, w.past) && Agree(v4, Replay(log), Replay(w.past.log)) && s !in w.past.live
    ensures |w.past.live| + 1 <= |Sources(log) + {s}|
  {
    ReplaySources(log);
    hide Replay, Faithful, Sources, Ordered, Filed, NotAhead;
    var live := w.past.live;
    assert live.Keys + {s} <= Sources(log) + {s};
    Smaller(live.Keys + {s}, Sources(log) + {s});
    assert |live.Keys + {s}| == |live.Keys| + 1 && |live.Keys| == |live|;
  }

  /** A full table has seen as many sources. */
  lemma Crowding(rl: RateLimiter, log: seq<Event>, clock: int, other: seq<Event>, s: Source)
    requires rl.Valid() && Joint(log, clock, rl.v4, rl.past.log, other)
    ensures NoRoom(rl.past.live, s) ==> TooMany(log, s)
  {
    hide Good, Sources, Agree, Replay;
    if s !in rl.past.live {
      LiveSeen(rl.hash, rl.v4, State(rl.table, rl.past), log, s);
    }
  }

  /** The two limiters, one for each address family, and what has happened to both. */
  class Limits {
    const v4: RateLimiter
    const v6: RateLimiter
    ghost var log: seq<Event>
    ghost var clock: int

    ghost predicate Valid()
      reads this, v4, v6
    {
      && v4 != v6 && v4.Valid() && v6.Valid() && v4.v4 && !v6.v4 && v4.past.clock <= clock && v6.past.clock <= clock
      && Joint(log, clock, true, v4.past.log, v6.past.log)
    }

    constructor (hash4: Hash, hash6: Hash, now: int)
      ensures Valid() && fresh(v4) && fresh(v6) && log == [] && clock == now
    {
      v4 := new RateLimiter(hash4, true, now);
      v6 := new RateLimiter(hash6, false, now);
      log, clock := [], now;
    }

    /** A packet is decided about by the table of its family; of other families none is let through. */
    method Admit(vnet: int, a: Address, now: int, alloc: bool) returns (rc: Errno, ghost e: Event)
      requires Valid() && now >= clock
      modifies this, v4, v6
      ensures Valid() && clock == now && log == old(log) + [e] && Records(e, vnet, a, now, rc)
      ensures e.Crowded? && alloc ==> TooMany(old(log), e.source)
    {
      hide RateLimiter.Valid, Joint, TooMany;
      match a {
        case Inet(_) => rc, e := v4.Join(vnet, a, now, alloc, log, clock, v6.past.log);
        case Inet6(_, _) =>
          Swapped(log, clock, true, v4.past.log, v6.past.log);
          rc, e := v6.Join(vnet, a, now, alloc, log, clock, v4.past.log);
          Swapped(log + [e], now, false, v6.past.log, v4.past.log);
        case Other =>
          rc, e := EAFNOSUPPORT, Foreign(now);
          JointNothing(log, clock, true, v4.past.log, v6.past.log, e);
      }
      log, clock := log + [e], now;
    }

    /** The collection of one of the tables; nobody notices. */
    method Collect(four: bool, now: int)
      requires Valid() && now >= clock
      modifies this, v4, v6
      ensures Valid() && clock == now && log == old(log) + [Collected(now)]
    {
      hide RateLimiter.Valid, Joint, Survivors;
      ghost var was, own, other := log, v4.past.log, v6.past.log;
      JointNothing(was, clock, true, own, other, Collected(now));
      if four {
        v4.Gc(now, false);
      } else {
        Swapped(was, clock, true, own, other);
        JointNothing(was, clock, false, other, own, Collected(now));
        Swapped(was + [Collected(now)], now, false, other + [Collected(now)], own);
        v6.Gc(now, false);
      }
      log, clock := was + [Collected(now)], now;
    }
  }

  lemma RecordsIts(e: Event, vnet: int, a: Address, now: int, rc: Errno)
    requires Records(e, vnet, a, now, rc) && !a.Other?
    ensures (e.Decided? || e.Crowded?) && e.source == SourceOf(vnet, a) && e.source.V4? == a.Inet? && e.at == now
  {
  }

  lemma Swapped(log: seq<Event>, clock: int, v4: bool, own: seq<Event>, other: seq<Event>)
    requires Joint(log, clock, v4, own, other)
    ensures Joint(log, clock, !v4, other, own)
  {
    hide Replay, Faithful, Agree;
  }

  // ---- Whole runs -----------------------------------------------------------------------

  datatype Step = Initiation(vnet: int, a: Address, at: int, alloc: bool) | Collection(four: bool, at: int)

  predicate Onwards(start: int, steps: seq<Step>) {
    && (forall i :: 0 <= i < |steps| ==> start <= steps[i].at)
    && (forall i, j :: 0 <= i < j < |steps| ==> steps[i].at <= steps[j].at)
  }

  function Heard(steps: seq<Step>): set<Source> {
    set st <- steps | st.Initiation? && !st.a.Other? :: SourceOf(st.vnet, st.a)
  }

  /** A table could hold every source, and memory suffices. */
  predicate Ample(steps: seq<Step>) {
    |Heard(steps)| <= 65_536 && forall st <- steps :: st.Initiation? ==> st.alloc
  }

  predicate Tells(st: Step, rc: Errno, e: Event) {
    match st
    case Initiation(vnet, a, at, _) => Records(e, vnet, a, at, rc)
    case Collection(_, at) => e == Collected(at) && rc == Ok
  }

  lemma NotTooMany(steps: seq<Step>, log: seq<Event>, i: nat, rc: Errno, e: Event)
    requires i < |steps| && Sources(log) <= Heard(steps) && Tells(steps[i], rc, e)
    ensures Sources(log + [e]) <= Heard(steps)
    ensures Ample(steps) && e.Crowded? ==> !TooMany(log, e.source)
  {
    assert steps[i] in steps;
    forall d | d in log + [e] ensures d in log || d == e {}
    assert e.Decided? || e.Crowded? ==> e.source in Heard(steps);
    hide SourceOf;
    if e.Crowded? {
      Smaller(Sources(log) + {e.source}, Heard(steps));
    }
  }

  /** Any packets and collections, in the order of time. Every answer is that of buckets which are never
      forgotten, but for sources without an entry when the table of their family is full or memory is out: these
      are refused. Over every stretch, no source is allowed more than a full bucket and the elapsed time pay for. */
  method Run(hash4: Hash, hash6: Hash, start: int, steps: seq<Step>) returns (rcs: seq<Errno>, ghost log: seq<Event>)
    requires Onwards(start, steps)
    ensures |rcs| == |log| == |steps| && forall i :: 0 <= i < |steps| ==> Tells(steps[i], rcs[i], log[i])
    ensures forall i :: 0 <= i < |log| ==> Right(Replay(log[..i]), log[i]) && Deserved(log, i)
    ensures forall a, b, s :: 0 <= a < b <= |log| ==>
      50_000_000 * Allowed(log[a..b], s) <= 250_000_000 + (steps[b - 1].at - steps[a].at)
    ensures Ample(steps) ==> forall e <- log :: !e.Crowded?
  {
    hide RateLimiter.Valid, Records, Replay, Right, Sources, Heard, TooMany, Allowed, Ample, Deserved;
    var limits := new Limits(hash4, hash6, start);
    NothingHeard(steps);
    rcs := [];
    for i := 0 to |steps|
      invariant fresh(limits) && fresh(limits.v4) && fresh(limits.v6) && limits.Valid()
      invariant limits.clock == (if i == 0 then start else steps[i - 1].at) && |limits.log| == |rcs| == i
      invariant forall j :: 0 <= j < i ==> Tells(steps[j], rcs[j], limits.log[j])
      invariant Sources(limits.log) <= Heard(steps)
      invariant Ample(steps) ==> forall e <- limits.log :: !e.Crowded?
    {
      var rc;
      ghost var e, was := Foreign(0), limits.log;
      match steps[i] {
        case Initiation(vnet, a, at, alloc) => rc, e := limits.Admit(vnet, a, at, alloc);
        case Collection(four, at) =>
          limits.Collect(four, at);
          rc, e := Ok, Collected(at);
      }
      NotTooMany(steps, was, i, rc, e);
      if Ample(steps) && steps[i].Initiation? {
        AmpleMemory(steps, i);
      }
      rcs := rcs + [rc];
    }
    log := limits.log;
    forall i | 0 <= i < |log| ensures Deserved(log, i) { IsDeserved(log, i); }
    forall a, b, s | 0 <= a < b <= |log|
      ensures 50_000_000 * Allowed(log[a..b], s) <= 250_000_000 + (steps[b - 1].at - steps[a].at)
    {
      RateBound(log, a, b, s);
      TellsTime(steps[a], rcs[a], log[a]);
      TellsTime(steps[b - 1], rcs[b - 1], log[b - 1]);
    }
  }

  lemma NothingHeard(steps: seq<Step>)
    ensures Sources([]) <= Heard(steps)
  {
  }

  lemma AmpleMemory(steps: seq<Step>, i: nat)
    requires Ample(steps) && i < |steps| && steps[i].Initiation?
    ensures steps[i].alloc
  {
  }

  lemma TellsTime(st: Step, rc: Errno, e: Event)
    requires Tells(st, rc, e)
    ensures e.at == st.at
  {
  }
}
