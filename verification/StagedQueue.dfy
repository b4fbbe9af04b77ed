/** The bounded packet queues themselves, and the sending of what waited for a session. */
module StagedQueue {
  import opened Wrappers
  import opened Words
  import ReplayWindow

  const MAX_STAGED_PKT: nat := 128

  type Id = int

  /** The newest n elements. */
  function Newest(s: seq<Id>, n: nat): seq<Id> { if |s| <= n then s else s[|s| - n..] }

  /** The others, which had to make room. */
  function Oldest(s: seq<Id>, n: nat): seq<Id> { if |s| <= n then [] else s[..|s| - n] }

  lemma NewestSplits(s: seq<Id>, n: nat)
    ensures Oldest(s, n) + Newest(s, n) == s && |Newest(s, n)| <= n
  {
  }

  lemma PushNewest(s: seq<Id>, p: Id, n: nat)
    requires n > 0
    ensures Newest(Newest(s, n) + [p], n) == Newest(s + [p], n)
    ensures Oldest(s, n) + Oldest(Newest(s, n) + [p], n) == Oldest(s + [p], n)
  {
  }

  datatype Outcome = Kept | Refused

  class PacketQueue {
    var items: seq<Id>
    var len: nat
    /** The packets freed by this queue, oldest first. */
    ghost var freed: seq<Id>

    ghost predicate Valid(limit: nat)
      reads this
    {
      len == |items| <= limit
    }

    constructor ()
      ensures Valid(0) && items == [] && freed == []
    {
      items, len, freed := [], 0, [];
    }

    method Enqueue(p: Id, limit: nat) returns (r: Outcome)
      requires Valid(limit)
      modifies this`items, this`len
      ensures Valid(limit)
      ensures r == (if |old(items)| < limit then Kept else Refused)
      ensures items == (if r == Kept then old(items) + [p] else old(items))
    {
      if len < limit {
        len := len + 1;
        items := items + [p];
        return Kept;
      }
      return Refused;
    }

    /** Takes the oldest packet, if it may be taken. */
    method Dequeue(limit: nat, ready: Id -> bool) returns (p: seq<Id>)
      requires Valid(limit)
      modifies this`items, this`len
      ensures Valid(limit) && p + items == old(items)
      ensures |p| == if old(items) != [] && ready(old(items)[0]) then 1 else 0
    {
      p := [];
      if len > 0 && ready(items[0]) {
        len := len - 1;
        p := [items[0]];
        items := items[1..];
      }
    }

    /** A full queue gives up its oldest packet for the new one. */
    method PushStaged(p: Id)
      requires Valid(MAX_STAGED_PKT)
      modifies this
      ensures Valid(MAX_STAGED_PKT)
      ensures items == Newest(old(items) + [p], MAX_STAGED_PKT)
      ensures freed == old(freed) + Oldest(old(items) + [p], MAX_STAGED_PKT)
    {
      var drop := [];
      if len >= MAX_STAGED_PKT {
        drop := [items[0]];
        items := items[1..];
        len := len - 1;
      }
      items := items + [p];
      len := len + 1;
      freed := freed + drop;
    }

    method EnlistStaged(list: seq<Id>)
      requires Valid(MAX_STAGED_PKT)
      modifies this
      ensures Valid(MAX_STAGED_PKT)
      ensures items == Newest(old(items) + list, MAX_STAGED_PKT)
      ensures freed == old(freed) + Oldest(old(items) + list, MAX_STAGED_PKT)
    {
      hide Newest, Oldest;
      ghost var before, gone := items, freed;
      NewestSplits(before, MAX_STAGED_PKT);
      assert before + list[..0] == before && Newest(before, MAX_STAGED_PKT) == before && Oldest(before, MAX_STAGED_PKT) == [] by {
        WithinLimit(before, MAX_STAGED_PKT);
      }
      for i := 0 to |list|
        invariant Valid(MAX_STAGED_PKT)
        invariant items == Newest(before + list[..i], MAX_STAGED_PKT)
        invariant freed == gone + Oldest(before + list[..i], MAX_STAGED_PKT)
      {
        PushNewest(before + list[..i], list[i], MAX_STAGED_PKT);
        assert before + list[..i] + [list[i]] == before + list[..i + 1];
        PushStaged(list[i]);
      }
      assert list[..|list|] == list;
    }

    method DelistStaged() returns (list: seq<Id>)
      modifies this`items, this`len
      ensures list == old(items) && items == [] && len == 0
    {
      list := items;
      items, len := [], 0;
    }

    /** Hands out consecutive nonces to everything that waited, in order; when there is no session to
        send on, or it runs out of nonces, everything waits on as before. */
    method SendStaged(current: ReplayWindow.Counters?) returns (queued: seq<Id>, nonces: seq<u64>)
      requires Valid(MAX_STAGED_PKT) && (current != null ==> current.Valid())
      modifies this
      modifies if current == null then {} else {current}
      ensures Valid(MAX_STAGED_PKT) && freed == old(freed)
      ensures current != null ==> current.Valid()
      ensures current != null ==> |current.issued| >= |old(current.issued)| && current.issued[..|old(current.issued)|] == old(current.issued)
      ensures queued == [] ==> items == old(items)
      ensures queued != [] ==> queued == old(items) && items == [] && |nonces| == |queued| && current != null
      ensures queued != [] ==> forall i :: 0 <= i < |nonces| ==> nonces[i] == |old(current.issued)| + i
    {
      hide ReplayWindow.Counters.Highest, ReplayWindow.Counters.Ring, ReplayWindow.Counters.Counting;
      queued, nonces := [], [];
      var list := DelistStaged();
      if list == [] {
        return;
      }
      WithinLimit(list, MAX_STAGED_PKT);
      assert [] + list == list;
      if current == null {
        EnlistStaged(list);
        return;
      }
      ghost var issued := current.issued;
      for i := 0 to |list|
        modifies this, current
        invariant Valid(MAX_STAGED_PKT) && items == [] && freed == old(freed) && current.Valid()
        invariant |nonces| == i && |current.issued| == |issued| + i && current.issued[..|issued|] == issued
        invariant forall j :: 0 <= j < i ==> nonces[j] == |issued| + j
      {
        var rc, nonce := current.NonceNext();
        if rc != Ok {
          EnlistStaged(list);
          return [], [];
        }
        nonces := nonces + [nonce];
      }
      queued := list;
    }
  }

  lemma WithinLimit(s: seq<Id>, n: nat)
    requires |s| <= n
    ensures Newest(s, n) == s && Oldest(s, n) == []
  {
  }
}
