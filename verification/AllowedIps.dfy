/** The bit trie of allowed addresses, against longest-prefix match over a map from bit prefixes. */
module AllowedIps {
  import opened Wrappers
  import opened Words

  type Peer = int

  /** Bit i of an address, bit 0 being the most significant bit of the first byte. */
  predicate BitAt(addr: seq<byte>, i: nat)
    requires i < 8 * |addr|
  {
    (addr[i / 8] / Pow2(7 - i % 8)) % 2 == 1
  }

  function Bits(addr: seq<byte>, n: nat): (b: seq<bool>)
    requires n <= 8 * |addr|
    ensures |b| == n
  {
    seq(n, i requires 0 <= i < n => BitAt(addr, i))
  }

  /** The whole bytes among the first n bits agree, and the upper n % 8 bits of the byte after them. */
  predicate SameStart(a: seq<byte>, b: seq<byte>, n: nat)
    requires |a| == |b| && n <= 8 * |a|
  {
    a[..n / 8] == b[..n / 8] && (n % 8 != 0 ==> a[n / 8] / Pow2(8 - n % 8) == b[n / 8] / Pow2(8 - n % 8))
  }

  lemma OneMoreBit(x: nat, y: nat, m: nat)
    requires m > 0
    ensures x / m == y / m <==> x / (2 * m) == y / (2 * m) && (x / m) % 2 == (y / m) % 2
  {
    DivTwice(x, m, 2);
    DivTwice(y, m, 2);
  }

  /** Bit 8 q + r of two addresses, within byte q. */
  lemma BitOfByte(a: seq<byte>, q: nat, r: nat)
    requires q < |a| && r < 8
    ensures BitAt(a, 8 * q + r) <==> (a[q] / Pow2(7 - r)) % 2 == 1
  {
    assert (8 * q + r) / 8 == q && (8 * q + r) % 8 == r;
  }

  lemma StartInByte(a: seq<byte>, b: seq<byte>, q: nat, r: nat)
    requires |a| == |b| && q < |a| && r < 8
    ensures SameStart(a, b, 8 * q + r) <==> a[..q] == b[..q] && a[q] / Pow2(8 - r) == b[q] / Pow2(8 - r)
  {
    assert (8 * q + r) / 8 == q && (8 * q + r) % 8 == r;
    if r == 0 {
      assert Pow2(8) == 256;
    }
    hide Pow2;
  }

  lemma StartAfterByte(a: seq<byte>, b: seq<byte>, q: nat)
    requires |a| == |b| && q < |a|
    ensures SameStart(a, b, 8 * q + 8) <==> a[..q] == b[..q] && a[q] == b[q]
  {
    assert (8 * q + 8) / 8 == q + 1 && (8 * q + 8) % 8 == 0;
    assert a[..q + 1] == a[..q] + [a[q]] && b[..q + 1] == b[..q] + [b[q]];
    hide Pow2;
  }

  lemma StartGrows(a: seq<byte>, b: seq<byte>, n: nat)
    requires |a| == |b| && n < 8 * |a|
    ensures SameStart(a, b, n + 1) <==> SameStart(a, b, n) && BitAt(a, n) == BitAt(b, n)
  {
    var q, r := n / 8, n % 8;
    assert Pow2(0) == 1 && Pow2(8 - r) == 2 * Pow2(7 - r);
    OneMoreBit(a[q], b[q], Pow2(7 - r));
    hide Pow2, SameStart, BitAt;
    BitOfByte(a, q, r);
    BitOfByte(b, q, r);
    StartInByte(a, b, q, r);
    if r == 7 {
      StartAfterByte(a, b, q);
    } else {
      StartInByte(a, b, q, r + 1);
    }
  }

  lemma NoStart(a: seq<byte>, b: seq<byte>)
    requires |a| == |b|
    ensures SameStart(a, b, 0)
  {
  }

  /** Agreeing in the first n bits is agreeing in whole bytes and in the upper bits of one more. */
  lemma {:induction false} SamePrefix(a: seq<byte>, b: seq<byte>, n: nat)
    requires |a| == |b| && n <= 8 * |a|
    ensures Bits(a, n) == Bits(b, n) <==> SameStart(a, b, n)
  {
    hide SameStart, BitAt;
    if n == 0 {
      NoStart(a, b);
    } else {
      SamePrefix(a, b, n - 1);
      StartGrows(a, b, n - 1);
      BitsGrow(a, n - 1);
      BitsGrow(b, n - 1);
    }
  }

  lemma BitsGrow(a: seq<byte>, n: nat)
    requires n < 8 * |a|
    ensures Bits(a, n + 1)[..n] == Bits(a, n) && Bits(a, n + 1)[n] == BitAt(a, n)
    ensures Bits(a, n + 1) == Bits(a, n) + [BitAt(a, n)]
  {
    hide BitAt;
  }

  type Table = map<seq<bool>, Peer>

  /** The longest prefix of the first n bits that the table holds decides. */
  function Longest(t: Table, bits: seq<bool>, n: nat): Option<Peer>
    requires n <= |bits|
  {
    if bits[..n] in t then Some(t[bits[..n]])
    else if n == 0 then None
    else Longest(t, bits, n - 1)
  }

  /** Longest names the peer of a prefix that is in the table, and no longer one is. */
  lemma {:induction false} LongestIsLongest(t: Table, bits: seq<bool>, n: nat)
    requires n <= |bits|
    ensures Longest(t, bits, n).None? <==> forall k :: 0 <= k <= n ==> bits[..k] !in t
    ensures Longest(t, bits, n).Some? ==>
      exists k :: 0 <= k <= n && bits[..k] in t && t[bits[..k]] == Longest(t, bits, n).value && forall j :: k < j <= n ==> bits[..j] !in t
  {
    if bits[..n] !in t && n > 0 {
      LongestIsLongest(t, bits, n - 1);
    }
  }

  // ---- Nodes ----------------------------------------------------------------------------

  /** Nodes are named by the address they are allocated at. */
  type Addr = int

  datatype Node = Node(peer: Option<Peer>, zero: Option<Addr>, one: Option<Addr>)

  function Child(n: Node, b: bool): Option<Addr> { if b then n.one else n.zero }

  function SetChild(n: Node, b: bool, a: Addr): Node { if b then n.(one := Some(a)) else n.(zero := Some(a)) }

  function Down(p: seq<bool>, b: bool): seq<bool> { p + [b] }

  lemma DownInjective(p: seq<bool>, b: bool, q: seq<bool>, c: bool)
    ensures Down(p, b) == Down(q, c) ==> p == q && b == c
  {
    if Down(p, b) == Down(q, c) {
      assert Down(p, b)[..|p|] == p && Down(q, c)[..|q|] == q;
      assert Down(p, b)[|p|] == b && Down(q, c)[|q|] == c;
    }
  }

  /** Which node a path leads to. */
  type Paths = map<seq<bool>, Addr>

  function At(paths: Paths, p: seq<bool>): Option<Addr> { if p in paths then Some(paths[p]) else None }

  /** Every node is reached by one path, its children by the paths one bit longer, and it carries the
      peer that the table has for its path. */
  ghost predicate NodeOk(nodes: map<Addr, Node>, paths: Paths, table: Table, p: seq<bool>)
    requires p in paths
  {
    && paths[p] in nodes
    && nodes[paths[p]].zero == At(paths, Down(p, false)) && nodes[paths[p]].one == At(paths, Down(p, true))
    && nodes[paths[p]].peer == if p in table then Some(table[p]) else None
  }

  ghost predicate Represents(nodes: map<Addr, Node>, root: Option<Addr>, paths: Paths, table: Table, maxBits: nat) {
    && root == At(paths, [])
    && (forall p <- paths :: |p| <= maxBits && NodeOk(nodes, paths, table, p))
    && (forall p, q :: p in paths && q in paths && paths[p] == paths[q] ==> p == q)
    && (forall p, b: bool :: Down(p, b) in paths ==> p in paths)
    && (forall p <- table :: p in paths)
    && (paths != map[] ==> [] in paths)
  }

  /** A new leaf: no other path is affected but the one that leads to its parent. */
  lemma GrowsNode(nodes: map<Addr, Node>, paths: Paths, table: Table, p: seq<bool>, b: bool, a: Addr, q: seq<bool>)
    requires p in paths && paths[p] in nodes && a !in nodes && Down(p, b) !in paths && Down(p, b) !in table
    requires q in paths && NodeOk(nodes, paths, table, q) && (paths[q] == paths[p] ==> q == p)
    ensures var n := paths[p];
      NodeOk(nodes[a := Node(None, None, None)][n := SetChild(nodes[n], b, a)], paths[Down(p, b) := a], table, q)
  {
    forall c: bool ensures Down(q, c) == Down(p, b) ==> q == p && c == b {
      DownInjective(q, c, p, b);
    }
    hide Down;
  }

  lemma GrowsLeaf(nodes: map<Addr, Node>, paths: Paths, table: Table, p: seq<bool>, b: bool, a: Addr)
    requires p in paths && paths[p] in nodes && a !in nodes && Down(p, b) !in table
    requires forall c: bool :: Down(Down(p, b), c) !in paths
    ensures var n := paths[p];
      NodeOk(nodes[a := Node(None, None, None)][n := SetChild(nodes[n], b, a)], paths[Down(p, b) := a], table, Down(p, b))
  {
    forall c: bool ensures Down(Down(p, b), c) != Down(p, b) {
      assert |Down(Down(p, b), c)| == |Down(p, b)| + 1;
    }
    hide Down;
  }

  lemma Grows(nodes: map<Addr, Node>, root: Option<Addr>, paths: Paths, table: Table, maxBits: nat, p: seq<bool>,
              b: bool, a: Addr)
    requires Represents(nodes, root, paths, table, maxBits) && p in paths && |p| < maxBits
    requires paths[p] in nodes && Child(nodes[paths[p]], b) == None && a !in nodes
    ensures var n := paths[p];
      Represents(nodes[a := Node(None, None, None)][n := SetChild(nodes[n], b, a)], root, paths[Down(p, b) := a], table, maxBits)
  {
    assert NodeOk(nodes, paths, table, p);
    var d := Down(p, b);
    var nodes', paths' := nodes[a := Node(None, None, None)][paths[p] := SetChild(nodes[paths[p]], b, a)], paths[d := a];
    assert d !in paths && d != [] && |d| <= maxBits && forall c: bool :: Down(d, c) !in paths;
    forall q, c: bool ensures Down(q, c) == d ==> q == p && c == b {
      DownInjective(q, c, p, b);
    }
    hide Down;
    forall q | q in paths' ensures NodeOk(nodes', paths', table, q) {
      if q == d {
        GrowsLeaf(nodes, paths, table, p, b, a);
      } else {
        GrowsNode(nodes, paths, table, p, b, a, q);
      }
    }
    forall q | q in paths ensures paths[q] != a {
      assert NodeOk(nodes, paths, table, q);
    }
    hide NodeOk;
  }

  lemma Roots(table: Table, maxBits: nat, a: Addr)
    requires Represents(map[], None, map[], table, maxBits)
    ensures Represents(map[a := Node(None, None, None)], Some(a), map[[] := a], table, maxBits)
  {
    assert table == map[];
    forall b: bool ensures Down([], b) != [] {
      assert |Down([], b)| == 1;
    }
    assert forall p, b: bool :: |Down(p, b)| > 0;
  }

  lemma Assigns(nodes: map<Addr, Node>, root: Option<Addr>, paths: Paths, table: Table, maxBits: nat, p: seq<bool>,
                peer: Peer)
    requires Represents(nodes, root, paths, table, maxBits) && p in paths
    ensures paths[p] in nodes && (nodes[paths[p]].peer.Some? <==> p in table)
    ensures Represents(nodes[paths[p] := nodes[paths[p]].(peer := Some(peer))], root, paths, table[p := peer], maxBits)
    ensures |table[p := peer]| == |table| + (if p in table then 0 else 1)
  {
    assert NodeOk(nodes, paths, table, p);
    var nodes', table' := nodes[paths[p] := nodes[paths[p]].(peer := Some(peer))], table[p := peer];
    hide Down;
    forall q | q in paths ensures NodeOk(nodes', paths, table', q) {
      assert NodeOk(nodes, paths, table, q);
    }
    hide NodeOk;
  }

  lemma ClearsNode(nodes: map<Addr, Node>, paths: Paths, table: Table, p: seq<bool>, q: seq<bool>)
    requires p in paths && paths[p] in nodes && q in paths && NodeOk(nodes, paths, table, q)
    requires (paths[q] == paths[p] ==> q == p)
    ensures NodeOk(nodes[paths[p] := nodes[paths[p]].(peer := None)], paths, table - {p}, q)
  {
    hide Down;
  }

  lemma Clears(nodes: map<Addr, Node>, root: Option<Addr>, paths: Paths, table: Table, maxBits: nat, p: seq<bool>)
    requires Represents(nodes, root, paths, table, maxBits) && p in paths && p in table
    ensures paths[p] in nodes
    ensures Represents(nodes[paths[p] := nodes[paths[p]].(peer := None)], root, paths, table - {p}, maxBits)
    ensures |table - {p}| == |table| - 1
  {
    hide Down;
    assert NodeOk(nodes, paths, table, p);
    var table' := table - {p};
    assert table == table'[p := table[p]];
    hide NodeOk;
    forall q | q in paths ensures NodeOk(nodes[paths[p] := nodes[paths[p]].(peer := None)], paths, table', q) {
      ClearsNode(nodes, paths, table, p, q);
    }
  }

  // ---- The trie -------------------------------------------------------------------------

  class Trie {
    var nodes: map<Addr, Node>
    var root: Option<Addr>
    const maxBits: nat
    var entries: nat
    ghost var paths: Paths
    /** The map that the trie stands for. */
    ghost var table: Table

    ghost predicate Valid()
      reads this
    {
      Represents(nodes, root, paths, table, maxBits) && entries == |table| && (root == None ==> nodes == map[])
    }

    constructor (maxBits: nat)
      ensures Valid() && table == map[] && nodes == map[] && this.maxBits == maxBits
    {
      nodes, root, entries, paths, table := map[], None, 0, map[], map[];
      this.maxBits := maxBits;
    }

    /** The addresses that allocations return, in order; when they run out, allocation fails. */
    predicate Available(memory: seq<Addr>)
      reads this`nodes
    {
      && (forall a <- memory :: a !in nodes)
      && (forall i, j :: 0 <= i < j < |memory| ==> memory[i] != memory[j])
    }

    /** Creates the root if there is none. */
    method Plant(memory: seq<Addr>) returns (ok: bool, left: seq<Addr>)
      requires Valid() && Available(memory)
      modifies this`nodes, this`root, this`paths
      ensures Valid() && (ok || memory == []) && (ok ==> root.Some? && |left| + 1 >= |memory| && Available(left))
    {
      hide Represents;
      if root.Some? {
        return true, memory;
      }
      if memory == [] {
        return false, [];
      }
      EmptyPaths(nodes, paths, table, maxBits);
      Roots(table, maxBits, memory[0]);
      nodes, root := map[memory[0] := Node(None, None, None)], Some(memory[0]);
      paths := map[[] := memory[0]];
      return true, memory[1..];
    }

    /** Follows the bits of a prefix, adding nodes where the path ends. */
    method Reach(addr: seq<byte>, len: nat, memory: seq<Addr>) returns (ok: bool, n: Addr, left: seq<Addr>)
      requires Valid() && root.Some? && len <= maxBits == 8 * |addr| && Available(memory)
      modifies this`nodes, this`paths
      ensures Valid() && (ok || |memory| < len) && (ok ==> |left| + len >= |memory| && Available(left))
      ensures ok ==> Bits(addr, len) in paths && paths[Bits(addr, len)] == n && n in nodes
    {
      hide Represents;
      left := memory;
      RootPath(nodes, root, paths, table, maxBits);
      n := root.value;
      assert Bits(addr, 0) == [];
      for i := 0 to len
        invariant Valid() && Available(left) && |left| + i >= |memory|
        invariant Bits(addr, i) in paths && paths[Bits(addr, i)] == n && n in nodes
      {
        var b := BitAt(addr, i);
        NextBit(addr, i);
        if Child(nodes[n], b).None? {
          if left == [] {
            return false, n, left;
          }
          Grows(nodes, root, paths, table, maxBits, Bits(addr, i), b, left[0]);
          nodes := nodes[left[0] := Node(None, None, None)][n := SetChild(nodes[n], b, left[0])];
          paths := paths[Bits(addr, i + 1) := left[0]];
          n := left[0];
          left := left[1..];
        } else {
          Steps(nodes, root, paths, table, maxBits, Bits(addr, i), b);
          n := Child(nodes[n], b).value;
        }
      }
      return true, n, left;
    }

    /** Maps the first `len` bits of the address to the peer, or fails and leaves the map alone. */
    method Insert(addr: seq<byte>, len: nat, peer: Option<Peer>, memory: seq<Addr>) returns (ok: bool, left: seq<Addr>)
      requires Valid() && maxBits == 8 * |addr| && Available(memory)
      modifies this
      ensures Valid()
      ensures len > maxBits || peer.None? ==> !ok
      ensures len <= maxBits && peer.Some? && |memory| > len ==> ok
      ensures !ok ==> table == old(table)
      ensures ok ==> |left| + len + 1 >= |memory| && Available(left)
      ensures ok ==> len <= maxBits && peer.Some? && table == old(table)[Bits(addr, len) := peer.value]
    {
      hide Valid;
      if peer.None? || len > maxBits {
        return false, memory;
      }
      ok, left := Plant(memory);
      if !ok {
        return;
      }
      var n;
      ok, n, left := Reach(addr, len, left);
      if !ok {
        return;
      }
      SetPeer(Bits(addr, len), n, peer.value);
    }

    /** Writes the peer into a node. */
    method SetPeer(ghost p: seq<bool>, n: Addr, peer: Peer)
      requires Valid() && p in paths && paths[p] == n && n in nodes
      modifies this`nodes, this`entries, this`table
      ensures Valid() && table == old(table)[p := peer] && nodes.Keys == old(nodes.Keys)
    {
      Assigns(nodes, root, paths, table, maxBits, p, peer);
      hide Represents;
      if nodes[n].peer == None {
        entries := entries + 1;
      }
      nodes := nodes[n := nodes[n].(peer := Some(peer))];
      table := table[p := peer];
    }

    /** The peer of the longest prefix that the map holds of the address. */
    method Lookup(addr: seq<byte>) returns (best: Option<Peer>)
      requires Valid() && maxBits == 8 * |addr|
      ensures best == Longest(table, Bits(addr, maxBits), maxBits)
    {
      hide Represents;
      best := None;
      ghost var bits := Bits(addr, maxBits);
      if root.None? {
        EmptyPaths(nodes, paths, table, maxBits);
        NothingFound(table, bits, maxBits);
        return;
      }
      RootPath(nodes, root, paths, table, maxBits);
      var n := root.value;
      Steps(nodes, root, paths, table, maxBits, [], false);
      best := nodes[n].peer;
      assert bits[..0] == [];
      var i := 0;
      while i < maxBits
        invariant 0 <= i <= maxBits && bits[..i] in paths && paths[bits[..i]] == n && n in nodes
        invariant best == Longest(table, bits, i)
      {
        var b := BitAt(addr, i);
        assert bits[..i + 1] == Down(bits[..i], b);
        Steps(nodes, root, paths, table, maxBits, bits[..i], b);
        var next := Child(nodes[n], b);
        if next.None? {
          NoLonger(nodes, root, paths, table, maxBits, bits, i);
          return;
        }
        n := next.value;
        Steps(nodes, root, paths, table, maxBits, bits[..i + 1], b);
        if nodes[n].peer.Some? {
          best := nodes[n].peer;
        }
        i := i + 1;
      }
    }

    /** Deletes the entry for exactly this prefix, if there is one. */
    method Remove(addr: seq<byte>, len: nat) returns (ok: bool)
      requires Valid() && maxBits == 8 * |addr|
      modifies this`nodes, this`entries, this`table
      ensures Valid()
      ensures ok == (len <= maxBits && Bits(addr, len) in old(table))
      ensures table == if ok then old(table) - {Bits(addr, len)} else old(table)
    {
      hide Represents;
      if root.None? || len > maxBits {
        if root.None? {
          EmptyPaths(nodes, paths, table, maxBits);
        }
        return false;
      }
      RootPath(nodes, root, paths, table, maxBits);
      var n := root.value;
      ghost var bits := Bits(addr, len);
      assert bits[..0] == [];
      for i := 0 to len
        invariant Valid() && table == old(table) && bits[..i] in paths && paths[bits[..i]] == n && n in nodes
      {
        var b := BitAt(addr, i);
        assert bits[..i + 1] == Down(bits[..i], b);
        Steps(nodes, root, paths, table, maxBits, bits[..i], b);
        if Child(nodes[n], b).None? {
          Absent(nodes, root, paths, table, maxBits, bits, i + 1, len);
          assert bits[..len] == bits;
          return false;
        }
        n := Child(nodes[n], b).value;
      }
      assert bits[..len] == bits;
      Steps(nodes, root, paths, table, maxBits, bits, false);
      if nodes[n].peer == None {
        return false;
      }
      Clears(nodes, root, paths, table, maxBits, bits);
      nodes := nodes[n := nodes[n].(peer := None)];
      table := table - {bits};
      if entries > 0 {
        entries := entries - 1;
      }
      return true;
    }
  }

  lemma {:induction false} NothingFound(t: Table, bits: seq<bool>, n: nat)
    requires n <= |bits| && t == map[]
    ensures Longest(t, bits, n) == None
  {
    if n > 0 {
      NothingFound(t, bits, n - 1);
    }
  }

  /** Below a missing path nothing is found. */
  lemma {:induction false} Absent(nodes: map<Addr, Node>, root: Option<Addr>, paths: Paths, table: Table,
                                  maxBits: nat, bits: seq<bool>, i: nat, k: nat)
    requires Represents(nodes, root, paths, table, maxBits) && i <= k <= |bits| && bits[..i] !in paths
    ensures bits[..k] !in paths && bits[..k] !in table
  {
    if i < k {
      Absent(nodes, root, paths, table, maxBits, bits, i, k - 1);
      assert bits[..k] == Down(bits[..k - 1], bits[k - 1]);
    }
  }

  lemma {:induction false} NoLonger(nodes: map<Addr, Node>, root: Option<Addr>, paths: Paths, table: Table,
                                    maxBits: nat, bits: seq<bool>, i: nat)
    requires Represents(nodes, root, paths, table, maxBits) && i < |bits| && bits[..i + 1] !in paths
    ensures Longest(table, bits, |bits|) == Longest(table, bits, i)
  {
    LongestSame(nodes, root, paths, table, maxBits, bits, i, |bits|);
  }

  lemma {:induction false} LongestSame(nodes: map<Addr, Node>, root: Option<Addr>, paths: Paths, table: Table,
                                       maxBits: nat, bits: seq<bool>, i: nat, n: nat)
    requires Represents(nodes, root, paths, table, maxBits) && i <= n <= |bits| && (i < n ==> bits[..i + 1] !in paths)
    ensures Longest(table, bits, n) == Longest(table, bits, i)
  {
    if i < n {
      Absent(nodes, root, paths, table, maxBits, bits, i + 1, n);
      LongestSame(nodes, root, paths, table, maxBits, bits, i, n - 1);
    }
  }

  lemma NextBit(addr: seq<byte>, i: nat)
    requires i < 8 * |addr|
    ensures Bits(addr, i + 1) == Down(Bits(addr, i), BitAt(addr, i))
  {
  }

  lemma EmptyPaths(nodes: map<Addr, Node>, paths: Paths, table: Table, maxBits: nat)
    requires Represents(nodes, None, paths, table, maxBits)
    ensures paths == map[] && table == map[]
  {
  }

  lemma RootPath(nodes: map<Addr, Node>, root: Option<Addr>, paths: Paths, table: Table, maxBits: nat)
    requires Represents(nodes, root, paths, table, maxBits) && root.Some?
    ensures [] in paths && paths[[]] == root.value && root.value in nodes
  {
    assert [] in paths ==> NodeOk(nodes, paths, table, []);
  }

  /** A child is where the longer path leads, and there is none when no such path is known. */
  lemma Steps(nodes: map<Addr, Node>, root: Option<Addr>, paths: Paths, table: Table, maxBits: nat, p: seq<bool>,
              b: bool)
    requires Represents(nodes, root, paths, table, maxBits) && p in paths
    ensures paths[p] in nodes && Child(nodes[paths[p]], b) == At(paths, Down(p, b))
    ensures Down(p, b) in paths ==> paths[Down(p, b)] in nodes
    ensures nodes[paths[p]].peer == if p in table then Some(table[p]) else None
  {
    assert NodeOk(nodes, paths, table, p);
    assert Down(p, b) in paths ==> NodeOk(nodes, paths, table, Down(p, b));
  }
}
