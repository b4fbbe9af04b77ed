/** The planner of the bounded long poll: which request to make next, and when to stop. */
module LongPoll {
  import opened Wrappers

  datatype Config = Config(budget: int, wait: int, minReturn: int, floor: int)
  datatype Outcome = Applied | Unchanged | NotModified | Error
  datatype Stop = BudgetExhausted | TransportError | NoRevSupport | WaitIgnored(elapsed: int)
  datatype Action = Fetch(wait: int) | Sleep(seconds: int) | Stopped(reason: Stop)
  datatype Mode = Probe | Trial | Polling

  function Least(c: Config): int { if c.minReturn < c.floor then c.minReturn else c.floor }

  /** Sleeps and held answers take time. */
  predicate Slow(c: Config) { c.minReturn > 0 && c.floor > 0 }

  /** What n answers `unchanged` cost in time: nothing for the first, and m for each further one. */
  function Price(n: nat, m: int): int { if n <= 1 then 0 else Price(n - 1, m) + m }

  lemma {:induction false} PriceIs(n: nat, m: int)
    ensures n >= 1 ==> Price(n, m) == (n - 1) * m
  {
    if n > 1 {
      PriceIs(n - 1, m);
      assert (n - 1) * m == (n - 2) * m + m;
    }
  }

  class Planner {
    const config: Config
    const deadline: int
    var mode: Mode
    var pendingSleep: Option<int>
    var stopped: Option<Stop>
    var rev: Option<string>
    /** The time, how many fetches were answered `unchanged`, and whether one is under way. */
    ghost var clock: int
    ghost var unchangedCount: nat
    ghost var fetching: bool

    ghost function Start(): int
      reads this
    {
      deadline - config.budget
    }

    /** What the answers have cost so far has passed, or will have when the next sleep is over. */
    ghost predicate Paid()
      reads this
    {
      var slept := if pendingSleep.Some? then pendingSleep.value else 0;
      && (mode == Probe ==> unchangedCount == 0) && (mode == Trial ==> unchangedCount <= 1)
      && Price(unchangedCount, Least(config)) <= clock + slept - Start()
    }

    /** The last answer may have come too late to be paid for, but not the one before. */
    ghost predicate Affordable()
      reads this
    {
      unchangedCount <= 2 || Price(unchangedCount - 1, Least(config)) <= config.budget
    }

    ghost predicate Valid()
      reads this
    {
      && (pendingSleep.Some? ==> !fetching && stopped.None? && pendingSleep.value == config.floor)
      && (pendingSleep.Some? ==> clock + pendingSleep.value < deadline)
      && (fetching ==> stopped.None? && pendingSleep.None? && clock < deadline - 1)
      && (Slow(config) ==> clock >= Start() && Affordable() && (stopped.None? ==> Paid()))
    }

    constructor (config: Config, startTime: int, rev: Option<string>)
      ensures Valid() && clock == startTime && unchangedCount == 0 && !fetching && stopped.None?
      ensures this.config == config && deadline == startTime + config.budget && this.rev == rev
    {
      this.config, deadline := config, startTime + config.budget;
      mode, pendingSleep, stopped, this.rev := Probe, None, None, rev;
      clock, unchangedCount, fetching := startTime, 0, false;
    }

    /** What to do now. A stop is final, a wait fits the time that is left, and a sleep that begins as soon as it
        was planned ends before the deadline. */
    method Next(now: int) returns (a: Action)
      requires Valid() && !fetching && now >= clock
      modifies this`pendingSleep, this`stopped, this`fetching, this`clock
      ensures Valid() && fetching == a.Fetch? && (if a.Stopped? then stopped == Some(a.reason) else stopped == None)
      ensures a.Stopped? || a.Fetch? ==> clock == now
      ensures a.Sleep? <==> old(stopped).None? && old(pendingSleep).Some?
      ensures pendingSleep == if a.Sleep? then None else old(pendingSleep)
      ensures old(stopped).Some? ==> a == Stopped(old(stopped).value)
      ensures a.Fetch? ==> 0 <= a.wait <= deadline - now && now + 1 < deadline && (a.wait == 0 <==> mode == Probe)
      ensures a.Fetch? && mode != Probe ==> a.wait == if config.wait < deadline - now then config.wait else deadline - now
      ensures a.Stopped? && old(stopped).None? ==> deadline - now <= 1 || (mode != Probe && config.wait < 1)
      ensures a.Sleep? ==> a.seconds == config.floor && old(clock) + a.seconds < deadline && clock == now + a.seconds
    {
      clock := now;
      if stopped.Some? {
        return Stopped(stopped.value);
      }
      if pendingSleep.Some? {
        var sleepFor := pendingSleep.value;
        pendingSleep := None;
        clock := clock + sleepFor;
        return Sleep(sleepFor);
      }
      var remaining := deadline - now;
      if remaining <= 1 {
        stopped := Some(BudgetExhausted);
        return Stopped(BudgetExhausted);
      }
      if mode == Probe {
        fetching := true;
        return Fetch(0);
      }
      var waitFor := if config.wait < remaining then config.wait else remaining;
      if waitFor < 1 {
        stopped := Some(BudgetExhausted);
        return Stopped(BudgetExhausted);
      }
      fetching := true;
      return Fetch(waitFor);
    }

    /** The answer to the fetch that Next asked for. */
    method Record(outcome: Outcome, elapsed: nat, newRev: Option<string>, now: int)
      requires Valid() && fetching && now >= clock + elapsed
      modifies this`mode, this`pendingSleep, this`stopped, this`rev, this`clock, this`unchangedCount, this`fetching
      ensures Valid() && !fetching && clock == now
      ensures unchangedCount == old(unchangedCount) + if outcome == Unchanged then 1 else 0
      ensures rev == if newRev.Some? && newRev.value != "" then newRev else old(rev)
      ensures pendingSleep.Some? ==> pendingSleep.value == config.floor && now + config.floor < deadline
      ensures pendingSleep.Some? <==>
        old(mode) == Polling && outcome == Unchanged && elapsed < config.minReturn && now + config.floor < deadline
      // The server is trusted with waits once it names a revision, and for good once it has held an answer back.
      ensures outcome == NotModified ==> mode == Polling
      ensures outcome == Error ==> mode == old(mode)
      ensures (outcome == Applied || outcome == Unchanged) && old(mode) == Probe ==>
        mode == if newRev.Some? && newRev.value != "" then Trial else Probe
      ensures (outcome == Applied || outcome == Unchanged) && old(mode) == Trial ==>
        mode == if elapsed >= config.minReturn then Polling else Trial
      ensures old(mode) == Polling ==> mode == Polling
      ensures stopped == Verdict(old(mode), outcome, elapsed, newRev, deadline - now, config)
    {
      if Slow(config) {
        LeastPositive(config);
      }
      clock, fetching := now, false;
      if outcome == Unchanged {
        unchangedCount := unchangedCount + 1;
      }
      if newRev.Some? && newRev.value != "" {
        rev := newRev;
      }
      if outcome == Error {
        stopped := Some(TransportError);
      } else if outcome == NotModified {
        mode := Polling;
      } else {
        match mode {
          case Probe =>
            if newRev.None? || newRev.value == "" {
              stopped := Some(NoRevSupport);
            } else {
              mode := Trial;
            }
          case Trial =>
            if elapsed >= config.minReturn {
              mode := Polling;
            } else {
              stopped := Some(WaitIgnored(elapsed));
            }
          case Polling =>
            if elapsed < config.minReturn && outcome == Unchanged {
              if deadline - now <= config.floor {
                stopped := Some(BudgetExhausted);
              } else {
                pendingSleep := Some(config.floor);
              }
            }
        }
      }
    }
  }

  lemma LeastPositive(c: Config)
    requires Slow(c)
    ensures 0 < Least(c) <= c.minReturn && Least(c) <= c.floor
  {
  }

  /** When an answer ends the invocation. */
  function Verdict(mode: Mode, outcome: Outcome, elapsed: int, newRev: Option<string>, remaining: int, c: Config)
    : Option<Stop>
  {
    if outcome == Error then Some(TransportError)
    else if outcome == NotModified then None
    else match mode
      case Probe => if newRev.None? || newRev.value == "" then Some(NoRevSupport) else None
      case Trial => if elapsed >= c.minReturn then None else Some(WaitIgnored(elapsed))
      case Polling =>
        if elapsed < c.minReturn && outcome == Unchanged && remaining <= c.floor then Some(BudgetExhausted) else None
  }

  /** What answers lead to a wait: after `not modified`, or after a first answer with a revision, the next
      request asks the server to hold it back. */
  method WaitsNext(p: Planner, outcome: Outcome, elapsed: nat, rev: string, now: int) returns (a: Action)
    requires p.Valid() && p.fetching && now >= p.clock + elapsed && rev != ""
    requires outcome == NotModified || ((outcome == Applied || outcome == Unchanged) && p.mode == Probe)
    requires p.config.wait >= 1 && p.deadline - now > 1
    modifies p
    ensures a == Fetch(if p.config.wait < p.deadline - now then p.config.wait else p.deadline - now) && a.wait >= 1
  {
    p.Record(outcome, elapsed, Some(rev), now);
    a := p.Next(now);
  }

  // ---- A whole invocation ---------------------------------------------------------------

  datatype Reply = Reply(outcome: Outcome, elapsed: nat, rev: Option<string>)

  function CountUnchanged(replies: seq<Reply>): nat {
    if replies == [] then 0
    else CountUnchanged(replies[..|replies| - 1]) + if replies[|replies| - 1].outcome == Unchanged then 1 else 0
  }

  /** Drives the planner with whatever the server answers, until it stops or the answers end: however fast
      they come and however late the planner is asked, no more are `unchanged` than two and what fits the budget. */
  method Drive(config: Config, startTime: int, replies: seq<Reply>, late: nat -> nat) returns (used: nat, p: Planner)
    ensures used <= |replies|
    ensures var n := CountUnchanged(replies[..used]); Slow(config) ==> n <= 2 || (n - 2) * Least(config) <= config.budget
    ensures used < |replies| ==> p.stopped.Some?
  {
    hide Planner.Paid;
    p := new Planner(config, startTime, None);
    used := 0;
    var now, turn := startTime, 0;
    while used < |replies| && p.stopped.None?
      invariant used <= |replies| && fresh(p) && p.Valid() && p.config == config && !p.fetching && now >= p.clock
      invariant p.unchangedCount == CountUnchanged(replies[..used])
      modifies p
      decreases |replies| - used, p.stopped.None?, p.pendingSleep.Some?
    {
      now, turn := now + late(turn), turn + 1;
      var a := p.Next(now);
      match a {
        case Stopped(_) =>
        case Sleep(seconds) => now := now + seconds;
        case Fetch(_) =>
          var r := replies[used];
          assert replies[..used + 1][..used] == replies[..used];
          now := now + r.elapsed + late(turn);
          p.Record(r.outcome, r.elapsed, r.rev, now);
          used := used + 1;
      }
    }
    if Slow(config) && p.unchangedCount > 2 {
      PriceIs(p.unchangedCount - 1, Least(config));
    }
  }
}
