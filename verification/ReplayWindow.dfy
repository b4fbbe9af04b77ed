/** The counters of a keypair: sending nonces, and the sliding window of RFC 6479 over received ones. */
module ReplayWindow {
  import opened Wrappers
  import opened Words

  const WORDS: nat := 128
  const BITS: nat := 64
  /** One word of the ring is always being refilled, so the window is a word short of the ring. */
  const WINDOW: nat := 8192 - 64
  const REJECT_AFTER_MESSAGES: nat := 0xffff_ffff_ffff_ffff - WINDOW - 1

  // ---- Single bits of a word ------------------------------------------------------------

  predicate Bit(x: nat, b: nat) { (x / Pow2(b)) % 2 == 1 }

  lemma {:induction false} BitHalf(x: nat, b: nat)
    requires b > 0
    ensures Bit(x, b) <==> Bit(x / 2, b - 1)
  {
    DivTwice(x, 2, Pow2(b - 1));
  }

  lemma {:induction false} AndTestsBit(x: nat, b: nat)
    ensures And(x, Pow2(b)) != 0 <==> Bit(x, b)
  {
    hide And, Bit;
    AndHalves(x, Pow2(b));
    if b == 0 {
      assert Pow2(0) == 1;
      AndZero(x / 2);
      LowBit(x);
    } else {
      BitHalf(x, b);
      AndTestsBit(x / 2, b - 1);
    }
  }

  lemma LowBit(x: nat)
    ensures Bit(x, 0) <==> x % 2 == 1
  {
  }

  lemma {:induction false} OrSetsBit(x: nat, b: nat, i: nat)
    ensures Bit(Or(x, Pow2(b)), i) <==> Bit(x, i) || i == b
  {
    hide Or, Bit;
    var m := Or(x, Pow2(b));
    OrHalves(x, Pow2(b));
    if i == 0 {
      LowBit(x);
      LowBit(m);
    } else {
      BitHalf(x, i);
      BitHalf(m, i);
      if b == 0 {
        OrZero(x / 2);
      } else {
        OrSetsBit(x / 2, b - 1, i - 1);
      }
    }
  }

  lemma OrZero(x: nat)
    ensures Or(x, 0) == x
  {
  }

  lemma NoBits(b: nat)
    ensures !Bit(0, b)
  {
    ModUnique(0, Pow2(b), 0, 0);
  }

  lemma BitBound(b: nat)
    requires b < 64
    ensures Pow2(b) < 0x1_0000_0000_0000_0000
  {
    TwoTo64();
    PowBelow(b, 64);
  }

  lemma {:induction false} PowBelow(b: nat, k: nat)
    requires b < k
    ensures Pow2(b) < Pow2(k)
  {
    if b < k - 1 {
      PowBelow(b, k - 1);
    }
  }

  // ---- What the window stands for -------------------------------------------------------

  /** A counter is taken unless it is out of range, too far behind an accepted one, or a repeat. */
  ghost predicate Fresh(accepted: set<int>, recv: int) {
    && recv < REJECT_AFTER_MESSAGES
    && (forall x <- accepted :: x <= recv + WINDOW)
    && recv !in accepted
  }

  /** The accepted counters after a sequence of checks. */
  ghost function Run(accepted: set<int>, recvs: seq<u64>): set<int>
    decreases |recvs|
  {
    if recvs == [] then accepted
    else
      var before := Run(accepted, recvs[..|recvs| - 1]);
      var recv := recvs[|recvs| - 1];
      if Fresh(before, recv) then before + {recv} else before
  }

  /** Packets that are never more than a window apart are all accepted, in whatever order they come. */
  lemma {:induction false} ReorderingWithinWindow(recvs: seq<u64>)
    requires forall i :: 0 <= i < |recvs| ==> recvs[i] < REJECT_AFTER_MESSAGES
    requires forall i, j :: 0 <= i < |recvs| && 0 <= j < |recvs| ==> recvs[i] <= recvs[j] + 8128
    requires forall i, j :: 0 <= i < j < |recvs| ==> recvs[i] != recvs[j]
    ensures Run({}, recvs) == set i | 0 <= i < |recvs| :: recvs[i] as int
  {
    if recvs != [] {
      var front, last := recvs[..|recvs| - 1], recvs[|recvs| - 1];
      ReorderingWithinWindow(front);
      assert Fresh(Run({}, front), last);
      forall i | 0 <= i < |recvs| ensures recvs[i] in Run({}, front) + {last} {
        assert i < |front| ==> front[i] == recvs[i];
      }
    }
  }

  /** The counter whose bit b is in word w: counters are stored one higher. */
  function Covered(w: int, b: nat): int { BITS * w + b - 1 }

  function Slot(w: int): (j: nat)
    ensures j < WORDS
  {
    w % WORDS
  }

  /** Words less than a ring apart have slots of their own. */
  lemma SlotsDistinct(v: int, w: int)
    requires v - WORDS < w < v
    ensures Slot(v) != Slot(w)
  {
  }

  lemma SlotWithin(w: int, base: int) returns (v: int)
    ensures base < v <= base + WORDS && Slot(v) == Slot(w)
  {
    v := base + 1 + (w - base - 1) % WORDS;
  }

  lemma CoveredUnique(w: int, b: nat, v: int, a: nat)
    requires b < BITS && a < BITS && Covered(w, b) == Covered(v, a)
    ensures w == v && b == a
  {
  }

  class Counters {
    var canSend: bool
    var nonceSend: u64
    /** One more than the highest counter accepted, or zero. */
    var nonceRecv: u64
    const backtrack: array<u64>
    ghost var issued: seq<nat>
    ghost var accepted: set<int>

    ghost predicate Counting()
      reads this`canSend, this`nonceSend, this`issued
    {
      && (canSend ==> nonceSend <= REJECT_AFTER_MESSAGES) && nonceSend <= REJECT_AFTER_MESSAGES + 1
      && |issued| <= nonceSend && (nonceSend <= REJECT_AFTER_MESSAGES ==> |issued| == nonceSend)
      && (forall i :: 0 <= i < |issued| ==> issued[i] == i)
    }

    /** nonceRecv belongs to the maximum of the accepted set. */
    ghost predicate Highest()
      reads this`nonceRecv, this`accepted
    {
      && nonceRecv <= REJECT_AFTER_MESSAGES
      && (forall x <- accepted :: 0 <= x < nonceRecv)
      && (nonceRecv > 0 ==> nonceRecv - 1 in accepted)
    }

    /** The ring holds the 128 words up to that of nonceRecv; word w covers counters 64w - 1 to 64w + 62. */
    ghost predicate Ring()
      reads this`nonceRecv, this`accepted, backtrack
    {
      && backtrack.Length == WORDS
      && forall w: int, b: nat {:trigger Covered(w, b)} :: nonceRecv / BITS - WORDS < w <= nonceRecv / BITS && b < BITS
           ==> (Bit(backtrack[Slot(w)], b) <==> Covered(w, b) in accepted)
    }

    ghost predicate Valid()
      reads this, backtrack
    {
      Counting() && Highest() && Ring()
    }

    constructor ()
      ensures Valid() && fresh(backtrack) && canSend
      ensures accepted == {} && issued == []
    {
      canSend, nonceSend, nonceRecv := true, 0, 0;
      backtrack := new u64[128](_ => 0);
      issued, accepted := [], {};
      new;
      forall b: nat ensures !Bit(0, b) {
        NoBits(b);
      }
    }

    /** Nonces are handed out in order from zero, never twice, and none from the limit on. */
    method NonceNext() returns (rc: Errno, send: u64)
      requires Counting()
      modifies this`canSend, this`nonceSend, this`issued
      ensures Counting() && (old(Valid()) ==> Valid())
      ensures rc == (if old(canSend) && |old(issued)| < REJECT_AFTER_MESSAGES then Ok else EINVAL)
      ensures rc == Ok ==> send == |old(issued)| < REJECT_AFTER_MESSAGES && issued == old(issued) + [send as nat] && canSend
      ensures rc != Ok ==> issued == old(issued) && !canSend
    {
      hide Ring;
      send := 0;
      if !canSend {
        return EINVAL, send;
      }
      send := nonceSend;
      nonceSend := nonceSend + 1;
      if send < REJECT_AFTER_MESSAGES {
        issued := issued + [send as nat];
        return Ok, send;
      }
      canSend := false;
      return EINVAL, send;
    }

    /** Clears the words between the old position and the new one. */
    method Advance(recv: u64)
      requires Highest() && Ring() && nonceRecv < recv <= REJECT_AFTER_MESSAGES
      modifies this`nonceRecv, backtrack
      ensures nonceRecv == recv && Ring()
    {
      hide Bit, Slot;
      var index, current := recv / BITS, nonceRecv / BITS;
      var top := if index - current < WORDS then index - current else WORDS;
      for i := 1 to top + 1
        modifies backtrack
        invariant forall w: int :: current - WORDS + i <= w <= current ==> backtrack[Slot(w)] == old(backtrack[Slot(w)])
        invariant forall w: int :: current < w < current + i ==> backtrack[Slot(w)] == 0
      {
        forall w: int | current + i - WORDS < w < current + i ensures Slot(current + i) != Slot(w) {
          SlotsDistinct(current + i, w);
        }
        backtrack[Slot(i + current)] := 0;
      }
      nonceRecv := recv;
      forall w: int, b: nat {:trigger Covered(w, b)} | index - WORDS < w <= index && b < BITS
        ensures Bit(backtrack[Slot(w)], b) <==> Covered(w, b) in accepted
      {
        if w > current {
          NoBits(b);
          var v := SlotWithin(w, current);
          if top == index - current {
            assert backtrack[Slot(w)] == 0;
          }
        }
      }
    }

    /** Records counter `recv`, which lies in word w of the window. */
    method SetBit(recv: u64, index: nat, b: nat)
      requires Ring()
      requires nonceRecv / BITS - WORDS < (recv as int + 1) / BITS <= nonceRecv / BITS
      requires index == Slot((recv as int + 1) / BITS) && b == (recv as int + 1) % BITS
      modifies this`accepted, backtrack
      ensures Ring() && accepted == old(accepted) + {recv as int}
    {
      hide Bit, Slot;
      BitBound(b);
      TwoTo64();
      OrBound(backtrack[index], Pow2(b), 64);
      ghost var at := (recv as int + 1) / BITS;
      ghost var word := backtrack[index];
      backtrack[index] := Or(backtrack[index], Pow2(b));
      accepted := accepted + {recv as int};
      forall w: int, a: nat {:trigger Covered(w, a)} | nonceRecv / BITS - WORDS < w <= nonceRecv / BITS && a < BITS
        ensures Bit(backtrack[Slot(w)], a) <==> Covered(w, a) in accepted
      {
        if w == at {
          OrSetsBit(word, b, a);
        } else {
          if w < at { SlotsDistinct(at, w); } else { SlotsDistinct(w, at); }
        }
        if Covered(w, a) == recv as int {
          CoveredUnique(w, a, at, b);
        }
      }
    }

    /** Accepts exactly the fresh counters, and remembers them; the ring is the accepted set. */
    method NonceCheck(recv: u64) returns (rc: Errno)
      requires Valid()
      modifies this`nonceRecv, this`accepted, backtrack
      ensures Valid()
      ensures rc == (if Fresh(old(accepted), recv) then Ok else EEXIST)
      ensures accepted == Run(old(accepted), [recv])
    {
      if nonceRecv >= REJECT_AFTER_MESSAGES + 1 || recv >= REJECT_AFTER_MESSAGES {
        return EEXIST;
      }
      var c: u64 := recv + 1;
      var far: u64 := c + WINDOW;
      if far < nonceRecv {
        return EEXIST;
      }
      if c > nonceRecv {
        Advance(c);
      }
      var w := c / BITS;
      var index, b := Slot(w), c % BITS;
      BitBound(b);
      var bit: u64 := Pow2(b);
      AndTestsBit(backtrack[index], b);
      assert Covered(w, b) == recv;
      if And(backtrack[index], bit) != 0 {
        return EEXIST;
      }
      SetBit(recv, index, b);
      rc := Ok;
    }
  }

  /** The answer to check i: taken when it is below the limit, no more than 8128 behind what was taken before,
      and none of that. */
  ghost predicate Told(recvs: seq<u64>, rcs: seq<Errno>, i: nat)
    requires i < |rcs| == |recvs|
  {
    && (rcs[i] == Ok || rcs[i] == EEXIST)
    && (rcs[i] == Ok <==>
          && recvs[i] < 0xffff_ffff_ffff_e03e
          && (forall j :: 0 <= j < i && rcs[j] == Ok ==> recvs[j] <= recvs[i] + 8128 && recvs[j] != recvs[i]))
  }

  /** The accepted counters are those of the checks that were answered so. */
  ghost predicate Lists(accepted: set<int>, recvs: seq<u64>, rcs: seq<Errno>)
    requires |rcs| == |recvs|
  {
    && (forall j :: 0 <= j < |rcs| && rcs[j] == Ok ==> recvs[j] in accepted)
    && (forall x <- accepted :: exists j :: 0 <= j < |rcs| && rcs[j] == Ok && recvs[j] == x)
  }

  lemma CheckTold(accepted: set<int>, recvs: seq<u64>, rcs: seq<Errno>, recv: u64, rc: Errno)
    requires |rcs| == |recvs| && Lists(accepted, recvs, rcs)
    requires rc == if Fresh(accepted, recv) then Ok else EEXIST
    ensures Told(recvs + [recv], rcs + [rc], |rcs|)
    ensures Lists(if Fresh(accepted, recv) then accepted + {recv} else accepted, recvs + [recv], rcs + [rc])
  {
    var recvs', rcs' := recvs + [recv], rcs + [rc];
    forall x | x in accepted ensures exists j :: 0 <= j < |rcs'| && rcs'[j] == Ok && recvs'[j] == x {
      var j :| 0 <= j < |rcs| && rcs[j] == Ok && recvs[j] == x;
      assert rcs'[j] == Ok && recvs'[j] == x;
    }
    assert rcs'[|rcs|] == rc && recvs'[|rcs|] == recv;
  }

  ghost predicate AllTold(recvs: seq<u64>, rcs: seq<Errno>) {
    |rcs| == |recvs| && forall i :: 0 <= i < |rcs| ==> Told(recvs, rcs, i)
  }

  lemma StillTold(recvs: seq<u64>, rcs: seq<Errno>, recv: u64, rc: Errno)
    requires AllTold(recvs, rcs) && Told(recvs + [recv], rcs + [rc], |rcs|)
    ensures AllTold(recvs + [recv], rcs + [rc])
  {
    var recvs', rcs' := recvs + [recv], rcs + [rc];
    forall i | 0 <= i < |rcs| ensures Told(recvs', rcs', i) {
      assert Told(recvs, rcs, i);
      assert forall j :: 0 <= j <= i ==> recvs'[j] == recvs[j] && rcs'[j] == rcs[j];
    }
  }

  /** A fresh keypair, checked with any sequence of counters, accepts exactly the fresh ones of them. */
  method CheckAll(recvs: seq<u64>) returns (c: Counters, rcs: seq<Errno>)
    ensures fresh(c) && c.Valid() && c.accepted == Run({}, recvs) && |rcs| == |recvs|
    ensures forall i :: 0 <= i < |recvs| ==> Told(recvs, rcs, i)
  {
    hide Fresh, Counters.Valid, Told, Lists, Run;
    c := new Counters();
    rcs := [];
    NothingListed();
    for i := 0 to |recvs|
      invariant fresh(c) && fresh(c.backtrack) && c.Valid() && c.accepted == Run({}, recvs[..i]) && |rcs| == i
      invariant Lists(c.accepted, recvs[..i], rcs) && AllTold(recvs[..i], rcs)
    {
      assert recvs[..i] + [recvs[i]] == recvs[..i + 1];
      ghost var before := c.accepted;
      var rc := c.NonceCheck(recvs[i]);
      RunOne(before, recvs[i]);
      RunLast(recvs[..i], recvs[i]);
      CheckTold(before, recvs[..i], rcs, recvs[i], rc);
      StillTold(recvs[..i], rcs, recvs[i], rc);
      rcs := rcs + [rc];
    }
    assert recvs[..|recvs|] == recvs;
  }

  lemma RunLast(recvs: seq<u64>, recv: u64)
    ensures var before := Run({}, recvs);
      Run({}, recvs + [recv]) == if Fresh(before, recv) then before + {recv} else before
  {
    assert (recvs + [recv])[..|recvs|] == recvs;
    hide Fresh;
  }

  lemma NothingListed()
    ensures Lists({}, [], []) && Run({}, []) == {}
  {
  }

  lemma RunOne(accepted: set<int>, recv: u64)
    ensures Run(accepted, [recv]) == if Fresh(accepted, recv) then accepted + {recv} else accepted
  {
    assert [recv][..0] == [];
  }
}
