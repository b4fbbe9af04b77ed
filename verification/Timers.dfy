/** When handshakes are initiated: the timer fields of one peer, and every event that changes them. */
module Timers {
  const REKEY_TIMEOUT: nat := 5
  const REKEY_AFTER_TIME: nat := 120
  const REKEY_JITTER_MAX: nat := 30
  const MAX_ATTEMPTS: nat := 18

  /** Successful initiations are at least a timeout apart. */
  ghost predicate Spaced(sent: seq<int>) {
    forall i, j :: 0 <= i < j < |sent| ==> sent[j] >= sent[i] + REKEY_TIMEOUT
  }

  lemma SpacedGrows(sent: seq<int>, now: int)
    requires Spaced(sent) && (sent != [] ==> now >= sent[|sent| - 1] + REKEY_TIMEOUT)
    ensures Spaced(sent + [now])
  {
  }

  function Sum(s: seq<nat>): nat
    decreases |s|
  {
    if s == [] then 0 else Sum(s[..|s| - 1]) + s[|s| - 1]
  }

  lemma SumGrows(s: seq<nat>, n: nat)
    ensures Sum(s + [n]) == Sum(s) + n
  {
    assert (s + [n])[..|s|] == s;
  }

  class Peer {
    /** An endpoint was configured; one that was learned from traffic does not count. */
    const hasEndpoint: bool
    var pending: bool
    var sentAt: int
    var attempts: nat
    /** Zero until there has been a keypair. */
    var birth: int
    var jitter: nat
    /** The times of the initiations that went out, how many of them belong to the handshake that is
        pending, how many belonged to each earlier one, and whether a keypair has come to be since the
        pending one began. */
    ghost var sent: seq<int>
    ghost var episode: nat
    ghost var episodes: seq<nat>
    ghost var renewed: bool
    ghost var clock: int

    ghost predicate Valid()
      reads this
    {
      && attempts <= MAX_ATTEMPTS && jitter < REKEY_JITTER_MAX && 0 <= birth <= clock && clock > 0
      && Spaced(sent) && (forall i :: 0 <= i < |sent| ==> 0 < sent[i] <= clock)
      && (forall n <- episodes :: 1 <= n <= MAX_ATTEMPTS)
      && (!hasEndpoint ==> sent == [] && !pending)
      && |sent| == Sum(episodes) + (if pending then episode else 0)
      && (pending ==> sent != [] && sent[|sent| - 1] <= sentAt <= clock && attempts == episode >= 1)
      && (pending && !renewed ==> WantsNew(clock))
      && (!pending && sent != [] ==> clock >= sent[|sent| - 1] + REKEY_TIMEOUT || birth >= sent[|sent| - 1])
    }

    constructor (hasEndpoint: bool, now: int)
      requires now > 0
      ensures Valid() && sent == [] && episodes == [] && clock == now && this.hasEndpoint == hasEndpoint
    {
      this.hasEndpoint := hasEndpoint;
      pending, sentAt, attempts, birth, jitter := false, 0, 0, 0, 0;
      sent, episode, episodes, clock, renewed := [], 0, [], now, false;
    }

    /** A pending handshake has waited long enough for its answer. */
    predicate Overdue(now: int)
      reads this`pending, this`sentAt
    {
      pending && now - sentAt >= REKEY_TIMEOUT
    }

    predicate GivesUp(now: int)
      reads this`pending, this`sentAt, this`attempts
    {
      Overdue(now) && attempts >= MAX_ATTEMPTS
    }

    /** There never was a keypair, or it is old enough to be replaced. */
    predicate WantsNew(now: int)
      reads this`birth, this`jitter
    {
      birth == 0 || (birth > 0 && now - birth >= REKEY_AFTER_TIME + jitter)
    }

    /** An initiation is attempted at this tick: another one of a pending handshake, or the first of a new one. */
    predicate Due(now: int)
      reads this
    {
      (Overdue(now) && !GivesUp(now)) || ((!pending || GivesUp(now)) && hasEndpoint && WantsNew(now))
    }

    /** Tries to send an initiation; `works` says whether it went out. */
    method SendInitiation(now: int, works: bool)
      modifies this`pending, this`sentAt, this`attempts, this`sent, this`episode, this`renewed
      ensures works ==> pending && sentAt == now && attempts == old(attempts) + 1 && sent == old(sent) + [now]
      ensures works ==> episode == (if old(pending) then old(episode) + 1 else 1) && renewed == (old(pending) && old(renewed))
      ensures !works ==> pending == old(pending) && sentAt == old(sentAt) && attempts == old(attempts)
      ensures !works ==> sent == old(sent) && episode == old(episode) && renewed == old(renewed)
    {
      if !works {
        return;
      }
      sent, episode, renewed := sent + [now], if pending then episode + 1 else 1, pending && renewed;
      pending, sentAt, attempts := true, now, attempts + 1;
    }

    /** First half of a tick: a pending handshake is tried again, or given up. The time of the attempt
        counts even when it fails. */
    method Retransmit(now: int, works: bool)
      requires Valid() && now >= clock
      modifies this`pending, this`sentAt, this`attempts, this`clock
      modifies this`sent, this`episode, this`episodes, this`renewed
      ensures Valid() && clock == now && pending == (old(pending) && !old(GivesUp(now)))
      ensures sent == old(sent) + if old(Overdue(now)) && !old(GivesUp(now)) && works then [now] else []
      ensures episodes == old(episodes) + if old(GivesUp(now)) then [old(episode)] else []
    {
      hide Spaced, Sum;
      clock := now;
      if pending && now - sentAt >= REKEY_TIMEOUT {
        SpacedGrows(sent, now);
        sentAt := now;
        if attempts >= MAX_ATTEMPTS {
          SumGrows(episodes, episode);
          episodes := episodes + [episode];
          pending, attempts := false, 0;
        } else {
          SendInitiation(now, works);
        }
      }
    }

    /** Second half: a handshake is begun when there is none and a new keypair is wanted. */
    method Renew(now: int, works: bool)
      requires Valid() && now == clock
      modifies this`pending, this`sentAt, this`attempts, this`sent, this`episode, this`renewed
      ensures Valid() && pending == (old(pending) || (hasEndpoint && WantsNew(now) && works))
      ensures sent == old(sent) + if !old(pending) && hasEndpoint && WantsNew(now) && works then [now] else []
    {
      hide Spaced, Sum;
      if !pending && hasEndpoint {
        var needsInitial := birth == 0;
        var needsRekey := birth > 0 && now - birth >= REKEY_AFTER_TIME + jitter;
        if needsInitial || needsRekey {
          SpacedGrows(sent, now);
          attempts := 0;
          SendInitiation(now, works);
        }
      }
    }

    lemma AttemptsCounted()
      requires Valid()
      ensures pending ==> attempts == episode
      ensures jitter < REKEY_JITTER_MAX
    {
    }

    /** One tick: at most one initiation goes out, exactly when it is due and can be sent. */
    method Tick(now: int, works: bool)
      requires Valid() && now >= clock
      modifies this
      ensures Valid() && clock == now && birth == old(birth) && jitter == old(jitter)
      ensures sent == old(sent) + if old(Due(now)) && works then [now] else []
      ensures episodes == old(episodes) + if old(GivesUp(now)) then [old(episode)] else []
      ensures pending <==> (old(Due(now)) && works) || (old(pending) && !old(GivesUp(now)))
      // A pending handshake is left alone for five seconds, tried again then, and given up after eighteen.
      ensures old(pending) && now - old(sentAt) < 5 ==> pending && sent == old(sent)
      ensures old(pending) && now - old(sentAt) >= 5 && old(episode) < 18 ==>
        pending && sent == old(sent) + if works then [now] else []
      ensures episodes != old(episodes) ==> old(pending) && now - old(sentAt) >= 5 && old(episode) == 18
      ensures old(pending) && now - old(sentAt) >= 5 && old(episode) == 18 ==> episodes == old(episodes) + [18]
      // Without one, another is begun at once when there was no keypair, and otherwise between 120 and 150 seconds on.
      ensures !old(pending) && hasEndpoint && birth == 0 && works ==> sent == old(sent) + [now]
      ensures !old(pending) && birth > 0 && now - birth < 120 ==> sent == old(sent)
      ensures !old(pending) && hasEndpoint && birth > 0 && now - birth >= 150 && works ==> sent == old(sent) + [now]
    {
      AttemptsCounted();
      hide Valid;
      Retransmit(now, works);
      Renew(now, works);
    }

    /** A keypair has come to be: after this the peer is left alone for a while. */
    method StampKeypair(now: int, random: nat)
      requires random < REKEY_JITTER_MAX
      modifies this`birth, this`jitter, this`renewed
      ensures birth == now && jitter == random && renewed
    {
      birth, jitter, renewed := now, random, true;
    }

    /** The peer initiated, and was answered. Our own handshake stays pending: its answer may be on the way. */
    method ConsumeInitiation(now: int, random: nat)
      requires Valid() && now >= clock && random < REKEY_JITTER_MAX
      modifies this
      ensures Valid() && clock == now && birth == now && jitter == random
      ensures sent == old(sent) && pending == old(pending) && episodes == old(episodes)
    {
      clock := now;
      StampKeypair(now, random);
    }

    /** The peer has answered our handshake. */
    method ConsumeResponse(now: int, random: nat)
      requires Valid() && now >= clock && random < REKEY_JITTER_MAX && pending
      modifies this
      ensures Valid() && clock == now && birth == now && jitter == random && !pending
      ensures sent == old(sent) && episodes == old(episodes) + [old(episode)]
    {
      clock := now;
      SumGrows(episodes, episode);
      episodes := episodes + [episode];
      pending, attempts := false, 0;
      StampKeypair(now, random);
    }
  }

  // ---- Whole runs -----------------------------------------------------------------------

  datatype Event = Tick(works: bool) | Initiation(random: nat) | Response(random: nat)
  datatype Timed = Timed(at: int, event: Event)

  ghost predicate Ordered(from: int, run: seq<Timed>) {
    && (forall i :: 0 <= i < |run| ==> from <= run[i].at && (run[i].event.Tick? || run[i].event.random < REKEY_JITTER_MAX))
    && (forall i, j :: 0 <= i < j < |run| ==> run[i].at <= run[j].at)
  }

  /** Whatever happens, on a clock that does not run backwards: initiations are at least five seconds
      apart, no handshake sends more than eighteen, and without a configured endpoint none is sent. */
  method Run(hasEndpoint: bool, start: int, run: seq<Timed>) returns (p: Peer)
    requires start > 0 && Ordered(start, run)
    ensures fresh(p) && p.Valid() && p.attempts <= 18
    ensures forall i, j :: 0 <= i < j < |p.sent| ==> p.sent[j] >= p.sent[i] + 5
    ensures (forall n <- p.episodes :: 1 <= n <= 18) && (p.pending ==> 1 <= p.episode <= 18)
    ensures |p.sent| == Sum(p.episodes) + if p.pending then p.episode else 0
    ensures !hasEndpoint ==> p.sent == []
  {
    p := new Peer(hasEndpoint, start);
    for i := 0 to |run|
      invariant fresh(p) && p.Valid() && p.hasEndpoint == hasEndpoint
      invariant p.clock <= if i < |run| then run[i].at else p.clock
    {
      match run[i].event {
        case Tick(works) => p.Tick(run[i].at, works);
        case Initiation(random) => p.ConsumeInitiation(run[i].at, random);
        case Response(random) =>
          // An answer to nothing that is pending finds no peer.
          if p.pending {
            p.ConsumeResponse(run[i].at, random);
          }
      }
    }
  }

  /** Giving up only starts another handshake at once, unless the peer has got a keypair while it was pending. */
  lemma GivingUpStartsAgain(p: Peer, now: int)
    requires p.Valid() && now >= p.clock && p.GivesUp(now)
    ensures p.Due(now) <==> p.birth == 0 || now - p.birth >= REKEY_AFTER_TIME + p.jitter
    ensures !p.renewed ==> p.Due(now)
  {
  }
}
