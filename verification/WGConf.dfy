/** The configuration file of the agent: reading it, writing it, and comparing what two of them mean. */
module WGConf {
  import opened Wrappers

  datatype KeyValue = KeyValue(key: string, value: string)
  datatype Interface = Interface(privateKey: string, address: string, listenPort: string, extras: seq<KeyValue>)
  datatype Peer = Peer(publicKey: string, endpoint: Option<string>, allowedIPs: seq<string>, keepalive: Option<int>)
  datatype Config = Config(interface: Interface, peers: seq<Peer>)

  // ---- Strings --------------------------------------------------------------------------

  /** Space separators and the tab. */
  predicate IsSpace(c: char) {
    c in {' ', '\t', '\U{00A0}', '\U{1680}', '\U{202F}', '\U{205F}', '\U{3000}'} || '\U{2000}' <= c <= '\U{200A}'
  }

  predicate Blank(s: string) { forall c <- s :: IsSpace(c) }

  predicate Trimmed(s: string) { s != "" ==> !IsSpace(s[0]) && !IsSpace(s[|s| - 1]) }

  function TrimLeft(s: string): string { if s != "" && IsSpace(s[0]) then TrimLeft(s[1..]) else s }

  function TrimRight(s: string): string
    decreases |s|
  {
    if s != "" && IsSpace(s[|s| - 1]) then TrimRight(s[..|s| - 1]) else s
  }

  function Trim(s: string): string { TrimRight(TrimLeft(s)) }

  lemma {:induction false} TrimLeftOf(a: string, s: string)
    requires Blank(a) && (s != "" ==> !IsSpace(s[0]))
    ensures TrimLeft(a + s) == s
  {
    if a == "" {
      assert a + s == s;
    } else {
      assert (a + s)[1..] == a[1..] + s;
      TrimLeftOf(a[1..], s);
    }
  }

  lemma {:induction false} TrimRightOf(s: string, b: string)
    requires Blank(b) && (s != "" ==> !IsSpace(s[|s| - 1]))
    ensures TrimRight(s + b) == s
    decreases |b|
  {
    if b == "" {
      assert s + b == s;
    } else {
      assert (s + b)[..|s + b| - 1] == s + b[..|b| - 1];
      TrimRightOf(s, b[..|b| - 1]);
    }
  }

  /** What is not blank around a trimmed string comes out unchanged. */
  lemma TrimOf(a: string, s: string, b: string)
    requires Blank(a) && Blank(b) && Trimmed(s)
    ensures Trim(a + s + b) == s
  {
    if s == "" {
      assert a + s + b == (a + b) + s;
      TrimLeftOf(a + b, s);
      assert "" + "" == "";
    } else {
      assert a + s + b == a + (s + b);
      TrimLeftOf(a, s + b);
      TrimRightOf(s, b);
    }
  }

  function SplitOn(s: string, sep: char): (r: seq<string>)
    ensures r != []
  {
    if s == "" then [""]
    else
      var r := SplitOn(s[1..], sep);
      if s[0] == sep then [""] + r else [[s[0]] + r[0]] + r[1..]
  }

  lemma {:induction false} SplitHead(a: string, sep: char, rest: string)
    requires sep !in a
    ensures SplitOn(a + [sep] + rest, sep) == [a] + SplitOn(rest, sep)
  {
    if a == "" {
      assert a + [sep] + rest == [sep] + rest;
    } else {
      assert (a + [sep] + rest)[1..] == a[1..] + [sep] + rest;
      SplitHead(a[1..], sep, rest);
      assert [a[0]] + a[1..] == a;
    }
  }

  lemma {:induction false} SplitWhole(a: string, sep: char)
    requires sep !in a
    ensures SplitOn(a, sep) == [a]
  {
    if a != "" {
      SplitWhole(a[1..], sep);
      assert [a[0]] + a[1..] == a;
    }
  }

  /** The lines of a text. A carriage return and a line feed are one character, which ends no line. */
  function SplitLines(s: string): (r: seq<string>)
    ensures r != []
  {
    if s == "" then [""]
    else if |s| >= 2 && s[0] == '\r' && s[1] == '\n' then
      var r := SplitLines(s[2..]); [s[..2] + r[0]] + r[1..]
    else if s[0] == '\n' then [""] + SplitLines(s[1..])
    else var r := SplitLines(s[1..]); [[s[0]] + r[0]] + r[1..]
  }

  /** What can stand before the end of a line. */
  predicate Unbroken(s: string) { '\n' !in s && (s != "" ==> s[|s| - 1] != '\r') }

  lemma {:induction false} LineHead(a: string, rest: string)
    requires Unbroken(a)
    ensures SplitLines(a + "\n" + rest) == [a] + SplitLines(rest)
  {
    var s := a + "\n" + rest;
    if a == "" {
      assert s[1..] == rest;
    } else {
      assert s[1..] == a[1..] + "\n" + rest;
      assert s[1] == if |a| == 1 then '\n' else a[1];
      LineHead(a[1..], rest);
      assert [a[0]] + a[1..] == a;
    }
  }

  function IndexOf(s: string, c: char): (i: Option<nat>)
    ensures i.Some? ==> i.value < |s| && s[i.value] == c
  {
    if s == "" then None
    else if s[0] == c then Some(0)
    else
      var i := IndexOf(s[1..], c);
      if i.None? then None else Some(i.value + 1)
  }

  lemma {:induction false} IndexAfter(a: string, c: char, rest: string)
    requires c !in a
    ensures IndexOf(a + [c] + rest, c) == Some(|a|)
  {
    if a == "" {
      assert a + [c] + rest == [c] + rest;
    } else {
      assert (a + [c] + rest)[1..] == a[1..] + [c] + rest;
      IndexAfter(a[1..], c, rest);
    }
  }

  /** Case folding of the letters that the known names are made of. */
  function LowerChar(c: char): char { if 'A' <= c <= 'Z' then ((c as int) + 32) as char else c }

  function Lower(s: string): string { seq(|s|, i requires 0 <= i < |s| => LowerChar(s[i])) }

  lemma KnownNames()
    ensures Lower("PrivateKey") == "privatekey" && Lower("Address") == "address" && Lower("ListenPort") == "listenport"
    ensures Lower("PublicKey") == "publickey" && Lower("Endpoint") == "endpoint" && Lower("AllowedIPs") == "allowedips"
    ensures Lower("PersistentKeepalive") == "persistentkeepalive"
    ensures Lower("[Interface]") == "[interface]" && Lower("[Peer]") == "[peer]"
  {
  }

  // ---- Numbers --------------------------------------------------------------------------

  const INT_LIMIT: nat := 0x8000_0000_0000_0000

  function Digit(d: nat): char
    requires d < 10
  {
    ('0' as int + d) as char
  }

  predicate AllDigits(s: string) { forall i :: 0 <= i < |s| ==> '0' <= s[i] <= '9' }

  function Decimal(n: nat): (s: string)
    ensures s != "" && AllDigits(s)
  {
    if n < 10 then [Digit(n)] else Decimal(n / 10) + [Digit(n % 10)]
  }

  function Digits(s: string): (n: nat)
    requires AllDigits(s)
    decreases |s|
  {
    if s == "" then 0 else 10 * Digits(s[..|s| - 1]) + (s[|s| - 1] as int - '0' as int)
  }

  /** A number with an optional sign, if it fits a 64-bit integer. */
  function ParseInt(s: string): Option<int> {
    var minus := s != "" && s[0] == '-';
    var body := if s != "" && (s[0] == '-' || s[0] == '+') then s[1..] else s;
    if body == "" || !AllDigits(body) then None
    else
      var n: int := Digits(body);
      if minus then (if n <= INT_LIMIT then Some(-n) else None)
      else if n < INT_LIMIT then Some(n) else None
  }

  lemma {:induction false} DigitsOfDecimal(n: nat)
    ensures Digits(Decimal(n)) == n
  {
    if n < 10 {
      assert [Digit(n)][..0] == "";
    } else {
      DigitsOfDecimal(n / 10);
      var s := Decimal(n / 10) + [Digit(n % 10)];
      assert s[..|s| - 1] == Decimal(n / 10);
    }
  }

  lemma NumberReads(n: nat)
    requires n < INT_LIMIT
    ensures ParseInt(Decimal(n)) == Some(n) && Trimmed(Decimal(n)) && Unbroken(Decimal(n))
  {
    DigitsOfDecimal(n);
    hide Digits;
    var s := Decimal(n);
    hide Decimal;
    assert '0' <= s[0] <= '9' && '0' <= s[|s| - 1] <= '9';
  }

  // ---- Reading --------------------------------------------------------------------------

  datatype Section = Nowhere | InInterface | InPeer

  datatype State = State(section: Section, priv: string, addr: string, listen: string, extras: seq<KeyValue>,
    peers: seq<Peer>, cur: Option<Peer>)

  const INIT := State(Nowhere, "", "", "", [], [], None)
  const NO_PEER := Peer("", None, [], None)

  /** A peer is kept when it has a key. */
  function Flush(st: State): State {
    var kept := st.cur.Some? && st.cur.value.publicKey != "";
    st.(peers := if kept then st.peers + [st.cur.value] else st.peers, cur := None)
  }

  function Header(st: State, name: string): State {
    var f := Flush(st);
    if "[interface]" <= name then f.(section := InInterface)
    else if "[peer]" <= name then f.(section := InPeer, cur := Some(NO_PEER))
    else f.(section := Nowhere)
  }

  function NonEmpty(s: seq<string>): seq<string> {
    if s == [] then [] else (if s[0] != "" then [s[0]] else []) + NonEmpty(s[1..])
  }

  function TrimAll(s: seq<string>): seq<string> { seq(|s|, i requires 0 <= i < |s| => Trim(s[i])) }

  function AllowedList(value: string): seq<string> { NonEmpty(TrimAll(SplitOn(value, ','))) }

  function AssignPeer(p: Peer, name: string, value: string): Peer {
    if name == "publickey" then p.(publicKey := value)
    else if name == "endpoint" then p.(endpoint := if value == "" then None else Some(value))
    else if name == "allowedips" then p.(allowedIPs := AllowedList(value))
    else if name == "persistentkeepalive" then p.(keepalive := ParseInt(value))
    else p
  }

  function Assign(st: State, key: string, value: string): State {
    var name := Lower(key);
    match st.section
    case Nowhere => st
    case InInterface =>
      if name == "privatekey" then st.(priv := value)
      else if name == "address" then st.(addr := value)
      else if name == "listenport" then st.(listen := value)
      else st.(extras := st.extras + [KeyValue(key, value)])
    case InPeer => if st.cur.None? then st else st.(cur := Some(AssignPeer(st.cur.value, name, value)))
  }

  function Feed(st: State, raw: string): State {
    var line := Trim(raw);
    if line == "" || line[0] == '#' then st
    else if line[0] == '[' then Header(st, Lower(line))
    else
      var eq := IndexOf(line, '=');
      if eq.None? then st else Assign(st, Trim(line[..eq.value]), Trim(line[eq.value + 1..]))
  }

  function FeedAll(st: State, lines: seq<string>): State
    decreases |lines|
  {
    if lines == [] then st else Feed(FeedAll(st, lines[..|lines| - 1]), lines[|lines| - 1])
  }

  function Parsed(st: State): Option<Config> {
    var f := Flush(st);
    if f.priv == "" then None else Some(Config(Interface(f.priv, f.addr, f.listen, f.extras), f.peers))
  }

  function Parse(text: string): Option<Config> { Parsed(FeedAll(INIT, SplitLines(text))) }

  method ParseText(text: string) returns (c: Option<Config>)
    ensures c == Parse(text)
  {
    hide Trim, SplitLines, Lower, IndexOf, AllowedList, ParseInt;
    var section, priv, addr, listen := Nowhere, "", "", "";
    var extras: seq<KeyValue>, peers: seq<Peer>, cur: Option<Peer> := [], [], None;
    var lines := SplitLines(text);
    for i := 0 to |lines|
      invariant State(section, priv, addr, listen, extras, peers, cur) == FeedAll(INIT, lines[..i])
    {
      assert lines[..i + 1][..i] == lines[..i];
      var line := Trim(lines[i]);
      if line == "" || line[0] == '#' {
        continue;
      }
      if line[0] == '[' {
        var name := Lower(line);
        if cur.Some? && cur.value.publicKey != "" {
          peers := peers + [cur.value];
        }
        cur := None;
        if "[interface]" <= name {
          section := InInterface;
        } else if "[peer]" <= name {
          section, cur := InPeer, Some(NO_PEER);
        } else {
          section := Nowhere;
        }
        continue;
      }
      var eq := IndexOf(line, '=');
      if eq.None? {
        continue;
      }
      var key, value := Trim(line[..eq.value]), Trim(line[eq.value + 1..]);
      match section {
        case Nowhere =>
        case InInterface =>
          match Lower(key) {
            case "privatekey" => priv := value;
            case "address" => addr := value;
            case "listenport" => listen := value;
            case _ => extras := extras + [KeyValue(key, value)];
          }
        case InPeer =>
          if cur.Some? {
            cur := Some(AssignPeer(cur.value, Lower(key), value));
          }
      }
    }
    assert lines[..|lines|] == lines;
    if cur.Some? && cur.value.publicKey != "" {
      peers := peers + [cur.value];
    }
    if priv == "" {
      return None;
    }
    return Some(Config(Interface(priv, addr, listen, extras), peers));
  }

  // ---- Order ----------------------------------------------------------------------------

  predicate Less(a: string, b: string) {
    if b == "" then false
    else if a == "" then true
    else a[0] < b[0] || (a[0] == b[0] && Less(a[1..], b[1..]))
  }

  lemma {:induction false} LessTotal(a: string, b: string)
    ensures Less(a, b) || a == b || Less(b, a)
    ensures !(Less(a, b) && a == b) && !(Less(b, a) && a == b) && !(Less(a, b) && Less(b, a))
  {
    if a != "" && b != "" {
      LessTotal(a[1..], b[1..]);
      assert a == [a[0]] + a[1..] && b == [b[0]] + b[1..];
    }
  }

  lemma {:induction false} LessTransitive(a: string, b: string, c: string)
    requires Less(a, b) && Less(b, c)
    ensures Less(a, c)
  {
    if a != "" && a[0] == b[0] == c[0] {
      LessTransitive(a[1..], b[1..], c[1..]);
    }
  }

  function Insert<T>(key: T -> string, x: T, s: seq<T>): seq<T> {
    if s == [] || Less(key(x), key(s[0])) then [x] + s else [s[0]] + Insert(key, x, s[1..])
  }

  /** A stable sort. */
  function SortBy<T>(key: T -> string, s: seq<T>): seq<T>
    decreases |s|
  {
    if s == [] then [] else Insert(key, s[|s| - 1], SortBy(key, s[..|s| - 1]))
  }

  predicate Sorted<T>(key: T -> string, s: seq<T>) { forall i, j :: 0 <= i < j < |s| ==> !Less(key(s[j]), key(s[i])) }

  /** Elements with equal keys are equal. */
  ghost predicate Tells<T>(key: T -> string, s: seq<T>) {
    forall i, j :: 0 <= i < |s| && 0 <= j < |s| && key(s[i]) == key(s[j]) ==> s[i] == s[j]
  }

  const KeyOf: Peer -> string := (p: Peer) => p.publicKey

  const Same: string -> string := (s: string) => s

  predicate DistinctKeys(ps: seq<Peer>) { forall i, j :: 0 <= i < j < |ps| ==> ps[i].publicKey != ps[j].publicKey }

  /** The peers by public key. */
  function SortPeers(ps: seq<Peer>): seq<Peer> { SortBy(KeyOf, ps) }

  lemma SortedCons<T>(key: T -> string, h: T, t: seq<T>)
    requires Sorted(key, t) && forall y <- t :: !Less(key(y), key(h))
    ensures Sorted(key, [h] + t)
  {
    hide Less;
  }

  lemma {:induction false} InsertMembers<T>(key: T -> string, x: T, s: seq<T>)
    ensures multiset(Insert(key, x, s)) == multiset(s) + multiset{x}
  {
    hide Less;
    if s != [] && !Less(key(x), key(s[0])) {
      InsertMembers(key, x, s[1..]);
      assert s == [s[0]] + s[1..];
    }
  }

  /** What comes before the first comes before all. */
  lemma BeforeFirst<T>(key: T -> string, x: T, s: seq<T>)
    requires Sorted(key, s) && s != [] && Less(key(x), key(s[0]))
    ensures forall y <- s :: !Less(key(y), key(x))
  {
    forall y <- s ensures !Less(key(y), key(x)) {
      LessTotal(key(x), key(s[0]));
      if Less(key(y), key(x)) {
        LessTransitive(key(y), key(x), key(s[0]));
      }
    }
  }

  /** The first of a sorted sequence comes before what is inserted behind it. */
  lemma FirstStays<T>(key: T -> string, x: T, s: seq<T>)
    requires Sorted(key, s) && s != [] && !Less(key(x), key(s[0]))
    ensures forall y <- Insert(key, x, s[1..]) :: !Less(key(y), key(s[0]))
  {
    InsertMembers(key, x, s[1..]);
    hide Less, Insert;
    forall y <- Insert(key, x, s[1..]) ensures y == x || y in s[1..] {
      assert y in multiset(s[1..]) + multiset{x};
    }
  }

  lemma {:induction false} InsertSorts<T>(key: T -> string, x: T, s: seq<T>)
    requires Sorted(key, s)
    ensures Sorted(key, Insert(key, x, s))
  {
    hide Less;
    if s == [] {
    } else if Less(key(x), key(s[0])) {
      BeforeFirst(key, x, s);
      SortedCons(key, x, s);
    } else {
      InsertSorts(key, x, s[1..]);
      FirstStays(key, x, s);
      hide Sorted;
      SortedCons(key, s[0], Insert(key, x, s[1..]));
    }
  }

  lemma {:induction false} SortSorts<T>(key: T -> string, s: seq<T>)
    ensures Sorted(key, SortBy(key, s)) && multiset(SortBy(key, s)) == multiset(s)
    decreases |s|
  {
    if s != [] {
      var k := |s| - 1;
      assert s == s[..k] + [s[k]];
      SortSorts(key, s[..k]);
      InsertSorts(key, s[k], SortBy(key, s[..k]));
      InsertMembers(key, s[k], SortBy(key, s[..k]));
    }
  }

  /** Sorted sequences of the same elements are the same where a key tells its element. */
  lemma {:induction false} SortedOnce<T>(key: T -> string, a: seq<T>, b: seq<T>)
    requires Sorted(key, a) && Sorted(key, b) && multiset(a) == multiset(b) && Tells(key, a)
    ensures a == b
  {
    if a == [] {
      assert |multiset(b)| == 0;
    } else {
      assert |multiset(b)| == |a|;
      SameHead(key, a, b);
      TailOf(a);
      TailOf(b);
      SortedTail(key, a);
      SortedTail(key, b);
      hide Sorted, Tells;
      SortedOnce(key, a[1..], b[1..]);
    }
  }

  lemma TailOf<T>(s: seq<T>)
    requires s != []
    ensures s == [s[0]] + s[1..] && multiset(s[1..]) == multiset(s) - multiset{s[0]}
  {
    assert s == [s[0]] + s[1..];
  }

  lemma SortedTail<T>(key: T -> string, s: seq<T>)
    requires Sorted(key, s) && s != []
    ensures Sorted(key, s[1..]) && (Tells(key, s) ==> Tells(key, s[1..]))
  {
  }

  lemma SameHead<T>(key: T -> string, a: seq<T>, b: seq<T>)
    requires Sorted(key, a) && Sorted(key, b) && multiset(a) == multiset(b) && Tells(key, a) && a != [] && b != []
    ensures a[0] == b[0]
  {
    assert a[0] in multiset(b);
    var j :| 0 <= j < |b| && b[j] == a[0];
    assert b[0] in multiset(a);
    var i :| 0 <= i < |a| && a[i] == b[0];
    LessTotal(key(a[0]), key(b[0]));
    hide Less;
  }

  /** The sorted sequence does not depend on the order it is given in. */
  lemma SortForgets<T>(key: T -> string, a: seq<T>, b: seq<T>)
    requires multiset(a) == multiset(b) && Tells(key, a)
    ensures SortBy(key, a) == SortBy(key, b)
  {
    SortSorts(key, a);
    SortSorts(key, b);
    var s := SortBy(key, a);
    forall i, j | 0 <= i < |s| && 0 <= j < |s| && key(s[i]) == key(s[j]) ensures s[i] == s[j] {
      assert s[i] in multiset(a) && s[j] in multiset(a);
    }
    SortedOnce(key, s, SortBy(key, b));
  }

  /** Sorting is stable: what is sorted stays as it is. */
  lemma {:induction false} SortKeeps<T>(key: T -> string, s: seq<T>)
    requires Sorted(key, s)
    ensures SortBy(key, s) == s
    decreases |s|
  {
    if s != [] {
      var k := |s| - 1;
      SortKeeps(key, s[..k]);
      InsertLast(key, s[k], s[..k]);
      assert s == s[..k] + [s[k]];
    }
  }

  lemma {:induction false} InsertLast<T>(key: T -> string, x: T, s: seq<T>)
    requires forall i :: 0 <= i < |s| ==> !Less(key(x), key(s[i]))
    ensures Insert(key, x, s) == s + [x]
  {
    if s != [] {
      InsertLast(key, x, s[1..]);
      assert s == [s[0]] + s[1..];
    }
  }

  // ---- Writing --------------------------------------------------------------------------

  function Unlines(lines: seq<string>): string
    decreases |lines|
  {
    if lines == [] then "" else Unlines(lines[..|lines| - 1]) + lines[|lines| - 1] + "\n"
  }

  function Join(s: seq<string>, sep: string): string {
    if s == [] then "" else if |s| == 1 then s[0] else s[0] + sep + Join(s[1..], sep)
  }

  function Line(k: string, pad: string, v: string): string { k + pad + "= " + v }

  function ExtraLines(extras: seq<KeyValue>): seq<string> {
    seq(|extras|, i requires 0 <= i < |extras| => Line(extras[i].key, " ", extras[i].value))
  }

  function HeadLines(i: Interface): seq<string> {
    ["[Interface]", Line("PrivateKey", " ", i.privateKey), Line("Address", "    ", i.address)]
    + [Line("ListenPort", " ", i.listenPort)]
  }

  function EndpointLines(p: Peer): seq<string> {
    if p.endpoint.Some? && p.endpoint.value != "" then [Line("Endpoint", "   ", p.endpoint.value)] else []
  }

  function KeepaliveLines(p: Peer): seq<string> {
    if p.keepalive.Some? && p.keepalive.value > 0 then [Line("PersistentKeepalive", " ", Decimal(p.keepalive.value))]
    else []
  }

  function PeerLines(p: Peer): seq<string> {
    ["[Peer]"] + [Line("PublicKey", "  ", p.publicKey)] + EndpointLines(p)
    + [Line("AllowedIPs", " ", Join(p.allowedIPs, ", "))] + KeepaliveLines(p) + [""]
  }

  function AllPeerLines(ps: seq<Peer>): seq<string>
    decreases |ps|
  {
    if ps == [] then [] else AllPeerLines(ps[..|ps| - 1]) + PeerLines(ps[|ps| - 1])
  }

  function RenderLines(c: Config): seq<string> {
    HeadLines(c.interface) + ExtraLines(c.interface.extras) + [""] + AllPeerLines(SortPeers(c.peers))
  }

  function Render(c: Config): string { Unlines(RenderLines(c)) }

  /** Appends the lines to the text. */
  method Write(text: string, lines: seq<string>) returns (out: string)
    ensures out == text + Unlines(lines)
  {
    out := text;
    for i := 0 to |lines|
      invariant out == text + Unlines(lines[..i])
    {
      assert lines[..i + 1] == lines[..i] + [lines[i]];
      UnlinesLast(lines[..i], lines[i]);
      out := out + lines[i] + "\n";
    }
    assert lines[..|lines|] == lines;
  }

  /** The text is put together section by section, the peers in the order of their keys. */
  method RenderText(c: Config) returns (out: string)
    ensures out == Render(c)
  {
    hide PeerLines, HeadLines, ExtraLines, Unlines;
    var head := HeadLines(c.interface) + ExtraLines(c.interface.extras) + [""];
    out := Write("", head);
    var peers := SortPeers(c.peers);
    assert head + AllPeerLines(peers[..0]) == head;
    for i := 0 to |peers|
      invariant out == Unlines(head + AllPeerLines(peers[..i]))
    {
      assert peers[..i + 1][..i] == peers[..i];
      assert head + AllPeerLines(peers[..i + 1]) == head + AllPeerLines(peers[..i]) + PeerLines(peers[i]);
      UnlinesAppend(head + AllPeerLines(peers[..i]), PeerLines(peers[i]));
      out := Write(out, PeerLines(peers[i]));
    }
    assert peers[..|peers|] == peers;
  }

  lemma UnlinesLast(a: seq<string>, line: string)
    ensures Unlines(a + [line]) == Unlines(a) + line + "\n"
  {
    assert (a + [line])[..|a|] == a;
  }

  lemma {:induction false} UnlinesAppend(a: seq<string>, b: seq<string>)
    ensures Unlines(a + b) == Unlines(a) + Unlines(b)
    decreases |b|
  {
    if b == [] {
      assert a + b == a;
    } else {
      assert (a + b)[..|a + b| - 1] == a + b[..|b| - 1];
      UnlinesAppend(a, b[..|b| - 1]);
    }
  }

  // ---- What was written is read back ----------------------------------------------------

  predicate Plain(s: string) { Trimmed(s) && Unbroken(s) }

  predicate GoodExtra(kv: KeyValue) {
    && Plain(kv.key) && Plain(kv.value) && '=' !in kv.key && (kv.key != "" ==> kv.key[0] != '#' && kv.key[0] != '[')
    && Lower(kv.key) != "privatekey" && Lower(kv.key) != "address" && Lower(kv.key) != "listenport"
  }

  predicate GoodPeer(p: Peer) {
    && p.publicKey != "" && Plain(p.publicKey) && (p.endpoint.Some? ==> p.endpoint.value != "" && Plain(p.endpoint.value))
    && (forall ip <- p.allowedIPs :: ip != "" && Plain(ip) && ',' !in ip)
    && (p.keepalive.Some? ==> 0 < p.keepalive.value < INT_LIMIT)
  }

  predicate WellFormed(c: Config) {
    && c.interface.privateKey != "" && Plain(c.interface.privateKey)
    && Plain(c.interface.address) && Plain(c.interface.listenPort)
    && (forall kv <- c.interface.extras :: GoodExtra(kv)) && (forall p <- c.peers :: GoodPeer(p))
  }

  /** An assignment without the blanks around it. */
  function Core(k: string, pad: string, v: string): string {
    (if k == "" then "" else k + pad) + ['='] + (if v == "" then "" else [' '] + v)
  }

  lemma CoreTrims(k: string, pad: string, v: string)
    requires Trimmed(k) && Blank(pad) && Trimmed(v)
    ensures Trim(Line(k, pad, v)) == Core(k, pad, v)
  {
    var left, core, right := if k == "" then pad else "", Core(k, pad, v), if v == "" then " " else "";
    assert Line(k, pad, v) == left + core + right;
    assert core[0] == if k == "" then '=' else k[0];
    assert core[|core| - 1] == if v == "" then '=' else v[|v| - 1];
    hide Core;
    TrimOf(left, core, right);
  }

  /** What stands before and after the sign. */
  function Front(k: string, pad: string): string { if k == "" then "" else k + pad }

  function Back(v: string): string { if v == "" then "" else [' '] + v }

  lemma CoreSign(k: string, pad: string, v: string)
    requires '=' !in k && Blank(pad)
    ensures IndexOf(Core(k, pad, v), '=') == Some(|Front(k, pad)|)
    ensures Core(k, pad, v)[..|Front(k, pad)|] == Front(k, pad) && Core(k, pad, v)[|Front(k, pad)| + 1..] == Back(v)
  {
    assert forall c <- pad :: c != '=';
    assert '=' !in Front(k, pad) && Core(k, pad, v) == Front(k, pad) + ['='] + Back(v);
    hide IsSpace, Blank, Front, Back, Core, IndexOf;
    IndexAfter(Front(k, pad), '=', Back(v));
  }

  lemma FrontTrims(k: string, pad: string)
    requires Trimmed(k) && Blank(pad)
    ensures Trim(Front(k, pad)) == k
  {
    assert Blank("");
    hide Trimmed, Blank, IsSpace, Trim;
    if k == "" {
      TrimOf("", k, "");
      assert "" + k + "" == Front(k, pad);
    } else {
      TrimOf("", k, pad);
      assert "" + k + pad == Front(k, pad);
    }
  }

  lemma BackTrims(v: string)
    requires Trimmed(v)
    ensures Trim(Back(v)) == v
  {
    assert Blank("") && Blank(" ");
    hide Trimmed, Blank, IsSpace, Trim;
    if v == "" {
      TrimOf("", v, "");
      assert "" + v + "" == Back(v);
    } else {
      TrimOf(" ", v, "");
      assert " " + v + "" == Back(v);
    }
  }

  /** A line that assigns a value, however it is padded. */
  lemma KeyLine(st: State, k: string, pad: string, v: string)
    requires Trimmed(k) && '=' !in k && (k != "" ==> k[0] != '#' && k[0] != '[') && Blank(pad) && Trimmed(v)
    ensures Feed(st, Line(k, pad, v)) == Assign(st, k, v)
  {
    CoreTrims(k, pad, v);
    CoreSign(k, pad, v);
    FrontTrims(k, pad);
    BackTrims(v);
    assert Core(k, pad, v)[0] == if k == "" then '=' else k[0];
    hide Assign, Core, Trim, IndexOf, Line, Front, Back, Blank, IsSpace, Trimmed;
  }

  lemma {:induction false} FeedAppend(st: State, a: seq<string>, b: seq<string>)
    ensures FeedAll(st, a + b) == FeedAll(FeedAll(st, a), b)
    decreases |b|
  {
    hide Feed;
    if b == [] {
      assert a + b == a;
    } else {
      assert (a + b)[..|a + b| - 1] == a + b[..|b| - 1];
      FeedAppend(st, a, b[..|b| - 1]);
    }
  }

  lemma FeedOne(st: State, line: string)
    ensures FeedAll(st, [line]) == Feed(st, line)
  {
    hide Feed;
    assert [line][..0] == [];
  }

  lemma FeedNext(st: State, a: seq<string>, line: string)
    ensures FeedAll(st, a + [line]) == Feed(FeedAll(st, a), line)
  {
    hide Feed;
    assert (a + [line])[..|a|] == a;
  }

  lemma BlankLine(st: State)
    ensures Feed(st, "") == st
  {
  }

  lemma HeaderLine(st: State, line: string)
    requires line == "[Interface]" || line == "[Peer]"
    ensures Feed(st, line) == if line == "[Peer]" then Flush(st).(section := InPeer, cur := Some(NO_PEER))
      else Flush(st).(section := InInterface)
  {
    KnownNames();
    TrimOf("", line, "");
    assert "" + line + "" == line;
    assert Trim(line) == line && line[0] == '[';
    hide Trim, Lower, Flush;
    assert !("[interface]" <= "[peer]");
  }

  /** A line whose key is one of the known names. */
  lemma KnownLine(st: State, k: string, pad: string, v: string)
    requires k in {"PrivateKey", "Address", "ListenPort", "PublicKey", "Endpoint", "AllowedIPs", "PersistentKeepalive"}
    requires Blank(pad) && Trimmed(v)
    ensures Feed(st, Line(k, pad, v)) == Assign(st, k, v)
  {
    KeyLine(st, k, pad, v);
  }

  lemma HeadFed(st: State, i: Interface)
    requires Trimmed(i.privateKey) && Trimmed(i.address) && Trimmed(i.listenPort)
    ensures FeedAll(st, HeadLines(i)) ==
      Flush(st).(section := InInterface, priv := i.privateKey, addr := i.address, listen := i.listenPort)
  {
    var a, b := "[Interface]", Line("PrivateKey", " ", i.privateKey);
    var c, d := Line("Address", "    ", i.address), Line("ListenPort", " ", i.listenPort);
    assert HeadLines(i) == [a] + [b] + [c] + [d];
    var s1 := Flush(st).(section := InInterface);
    var s2 := s1.(priv := i.privateKey);
    var s3 := s2.(addr := i.address);
    assert Assign(s1, "PrivateKey", i.privateKey) == s2 && Assign(s2, "Address", i.address) == s3
      && Assign(s3, "ListenPort", i.listenPort) == s3.(listen := i.listenPort) by { KnownNames(); hide Lower; }
    hide Feed, Flush, HeadLines, Line, Assign;
    FeedOne(st, a);
    HeaderLine(st, a);
    FeedNext(st, [a], b);
    KnownLine(s1, "PrivateKey", " ", i.privateKey);
    FeedNext(st, [a] + [b], c);
    KnownLine(s2, "Address", "    ", i.address);
    FeedNext(st, [a] + [b] + [c], d);
    KnownLine(s3, "ListenPort", " ", i.listenPort);
  }

  lemma {:induction false} ExtrasFed(st: State, extras: seq<KeyValue>)
    requires st.section == InInterface && forall kv <- extras :: GoodExtra(kv)
    ensures FeedAll(st, ExtraLines(extras)) == st.(extras := st.extras + extras)
    decreases |extras|
  {
    if extras == [] {
      assert st.extras + extras == st.extras;
    } else {
      var k := |extras| - 1;
      var kv := extras[k];
      assert ExtraLines(extras) == ExtraLines(extras[..k]) + [Line(kv.key, " ", kv.value)];
      ExtrasFed(st, extras[..k]);
      assert st.extras + extras[..k] + [kv] == st.extras + extras;
      assert GoodExtra(kv);
      hide Feed;
      FeedNext(st, ExtraLines(extras[..k]), Line(kv.key, " ", kv.value));
      KeyLine(st.(extras := st.extras + extras[..k]), kv.key, " ", kv.value);
    }
  }

  lemma ListHead(a: string, rest: string)
    requires ',' !in a && Trim(a) != ""
    ensures AllowedList(a + [','] + rest) == [Trim(a)] + AllowedList(rest)
  {
    SplitHead(a, ',', rest);
    hide Trim, SplitOn;
    assert TrimAll([a] + SplitOn(rest, ',')) == [Trim(a)] + TrimAll(SplitOn(rest, ','));
  }

  lemma ListLast(a: string)
    requires ',' !in a
    ensures AllowedList(a) == if Trim(a) == "" then [] else [Trim(a)]
  {
    SplitWhole(a, ',');
    hide Trim, SplitOn;
    var t := [Trim(a)];
    assert TrimAll([a]) == t && t[1..] == [] && NonEmpty(t[1..]) == [];
    assert NonEmpty(t) == (if t[0] != "" then [t[0]] else []) + NonEmpty(t[1..]);
  }

  lemma {:induction false} ListReads(pad: string, ips: seq<string>)
    requires Blank(pad) && forall ip <- ips :: ip != "" && Trimmed(ip) && ',' !in ip
    ensures AllowedList(pad + Join(ips, ", ")) == ips
    decreases |ips|
  {
    assert Blank("") && Blank(" ") && ',' !in pad;
    hide Trimmed, Blank, IsSpace, Trim, AllowedList;
    if ips == [] {
      assert "" + "" + pad == pad && pad + Join(ips, ", ") == pad;
      TrimOf("", "", pad);
      ListLast(pad);
    } else {
      assert pad + ips[0] + "" == pad + ips[0];
      TrimOf(pad, ips[0], "");
      if |ips| == 1 {
        ListLast(pad + ips[0]);
      } else {
        assert pad + Join(ips, ", ") == (pad + ips[0]) + [','] + (" " + Join(ips[1..], ", "));
        ListHead(pad + ips[0], " " + Join(ips[1..], ", "));
        ListReads(" ", ips[1..]);
        assert [ips[0]] + ips[1..] == ips;
      }
    }
  }

  lemma {:induction false} JoinPlain(ips: seq<string>)
    requires forall ip <- ips :: ip != "" && Plain(ip)
    ensures Plain(Join(ips, ", ")) && (ips != [] ==> Join(ips, ", ") != "")
  {
    if |ips| > 1 {
      forall ip <- ips[1..] ensures ip != "" && Plain(ip) { assert ip in ips; }
      JoinPlain(ips[1..]);
      var a, b := ips[0], Join(ips[1..], ", ");
      assert Plain(a) && Plain(b) && a != "" && b != "";
      var r := a + ", " + b;
      assert r[0] == a[0] && r[|r| - 1] == b[|b| - 1] && '\n' !in r;
    }
  }

  lemma PeerFed(st: State, p: Peer)
    requires GoodPeer(p)
    ensures FeedAll(st, PeerLines(p)) == Flush(st).(section := InPeer, cur := Some(p))
  {
    var f := Flush(st).(section := InPeer);
    var p1 := NO_PEER.(publicKey := p.publicKey);
    var p2 := p1.(endpoint := p.endpoint);
    var p3 := p2.(allowedIPs := p.allowedIPs);
    var a, b := "[Peer]", Line("PublicKey", "  ", p.publicKey);
    var c, d, e := EndpointLines(p), Line("AllowedIPs", " ", Join(p.allowedIPs, ", ")), KeepaliveLines(p);
    assert p3.(keepalive := p.keepalive) == p;
    assert PeerLines(p) == [a] + [b] + c + [d] + e + [""];
    JoinPlain(p.allowedIPs);
    assert Plain(Join(p.allowedIPs, ", ")) && Plain(p.publicKey);
    FedEndpoint(f.(cur := Some(p1)), p);
    FedAllowed(f.(cur := Some(p2)), p);
    FedKeepalive(f.(cur := Some(p3)), p);
    FedKey(f.(cur := Some(NO_PEER)), p);
    hide Feed, Flush, PeerLines, Line, EndpointLines, KeepaliveLines, Join, GoodPeer;
    FeedOne(st, a);
    HeaderLine(st, a);
    FeedNext(st, [a], b);
    FeedAppend(st, [a] + [b], c);
    FeedNext(st, [a] + [b] + c, d);
    FeedAppend(st, [a] + [b] + c + [d], e);
    FeedNext(st, [a] + [b] + c + [d] + e, "");
    BlankLine(f.(cur := Some(p)));
  }

  lemma FedKey(st: State, p: Peer)
    requires Trimmed(p.publicKey) && st.section == InPeer && st.cur == Some(NO_PEER)
    ensures Feed(st, Line("PublicKey", "  ", p.publicKey)) == st.(cur := Some(NO_PEER.(publicKey := p.publicKey)))
  {
    assert Blank("  ");
    hide Feed, Line, Trimmed, Blank;
    KnownLine(st, "PublicKey", "  ", p.publicKey);
    KnownNames();
    hide Lower, AllowedList, ParseInt;
  }

  lemma FedEndpoint(st: State, p: Peer)
    requires GoodPeer(p) && st.section == InPeer && st.cur.Some? && st.cur.value.endpoint == None
    ensures FeedAll(st, EndpointLines(p)) == st.(cur := Some(st.cur.value.(endpoint := p.endpoint)))
  {
    if p.endpoint.Some? {
      var line := Line("Endpoint", "   ", p.endpoint.value);
      assert Blank("   ") && Trimmed(p.endpoint.value) && EndpointLines(p) == [line];
      hide Feed, Line, Trimmed, Blank, EndpointLines;
      KnownLine(st, "Endpoint", "   ", p.endpoint.value);
      FeedOne(st, line);
      KnownNames();
      hide Lower, AllowedList, ParseInt;
    }
  }

  lemma FedAllowed(st: State, p: Peer)
    requires GoodPeer(p) && st.section == InPeer && st.cur.Some? && Trimmed(Join(p.allowedIPs, ", "))
    ensures Feed(st, Line("AllowedIPs", " ", Join(p.allowedIPs, ", "))) ==
      st.(cur := Some(st.cur.value.(allowedIPs := p.allowedIPs)))
  {
    assert Blank(" ") && Blank("") && forall ip <- p.allowedIPs :: ip != "" && Trimmed(ip) && ',' !in ip;
    hide Feed, Line, Trimmed, Blank, GoodPeer;
    KnownLine(st, "AllowedIPs", " ", Join(p.allowedIPs, ", "));
    ListReads("", p.allowedIPs);
    assert "" + Join(p.allowedIPs, ", ") == Join(p.allowedIPs, ", ");
    KnownNames();
    hide Lower, AllowedList, ParseInt, Join;
  }

  lemma FedKeepalive(st: State, p: Peer)
    requires GoodPeer(p) && st.section == InPeer && st.cur.Some? && st.cur.value.keepalive == None
    ensures FeedAll(st, KeepaliveLines(p)) == st.(cur := Some(st.cur.value.(keepalive := p.keepalive)))
  {
    if p.keepalive.Some? {
      var text := Decimal(p.keepalive.value);
      var line := Line("PersistentKeepalive", " ", text);
      NumberReads(p.keepalive.value);
      assert Blank(" ") && KeepaliveLines(p) == [line];
      hide Feed, Line, Trimmed, Blank, KeepaliveLines, GoodPeer, Decimal;
      KnownLine(st, "PersistentKeepalive", " ", text);
      FeedOne(st, line);
      KnownNames();
      hide Lower, AllowedList, ParseInt;
    }
  }

  lemma FlushKeeps(f: State, p: Peer)
    requires p.publicKey != "" && f.cur == None
    ensures Flush(f.(section := InPeer, cur := Some(p))) == f.(section := InPeer, peers := f.peers + [p])
  {
  }

  lemma FlushEmpties(st: State)
    ensures Flush(st).cur == None && Flush(st).section == st.section
  {
  }

  lemma PeerAfter(st: State, before: seq<string>, p: Peer)
    requires GoodPeer(p)
    ensures var f := Flush(FeedAll(st, before));
      Flush(FeedAll(st, before + PeerLines(p))) == f.(section := InPeer, peers := f.peers + [p])
  {
    hide Feed, PeerLines, FeedAll;
    var f := Flush(FeedAll(st, before));
    FeedAppend(st, before, PeerLines(p));
    PeerFed(FeedAll(st, before), p);
    FlushEmpties(FeedAll(st, before));
    assert p.publicKey != "";
    hide GoodPeer, Flush;
    FlushKeeps(f, p);
  }

  lemma {:induction false} PeersFed(st: State, ps: seq<Peer>)
    requires forall p <- ps :: GoodPeer(p)
    ensures Flush(FeedAll(st, AllPeerLines(ps))) ==
      Flush(st).(section := if ps == [] then st.section else InPeer, peers := Flush(st).peers + ps)
    decreases |ps|
  {
    hide Feed, PeerLines, GoodPeer;
    if ps == [] {
      assert Flush(st).peers + ps == Flush(st).peers;
    } else {
      var k := |ps| - 1;
      PeersFed(st, ps[..k]);
      PeerAfter(st, AllPeerLines(ps[..k]), ps[k]);
      hide FeedAll, Flush;
      assert Flush(st).peers + ps[..k] + [ps[k]] == Flush(st).peers + ps;
    }
  }

  // No line that is written is broken.
  predicate Whole(lines: seq<string>) { forall i :: 0 <= i < |lines| ==> Unbroken(lines[i]) }

  lemma {:induction false} LinesRead(lines: seq<string>)
    requires Whole(lines)
    ensures SplitLines(Unlines(lines)) == lines + [""]
  {
    if lines != [] {
      var a, rest := lines[0], lines[1..];
      assert lines == [a] + rest && [a][..0] == [];
      UnlinesAppend([a], rest);
      assert Unlines(lines) == a + "\n" + Unlines(rest);
      LineHead(a, Unlines(rest));
      LinesRead(rest);
      assert [a] + (rest + [""]) == lines + [""];
    }
  }

  lemma LineWhole(k: string, pad: string, v: string)
    requires '\n' !in k && '\n' !in pad && Unbroken(v)
    ensures Whole([Line(k, pad, v)])
  {
  }

  lemma EndpointWhole(p: Peer)
    requires GoodPeer(p)
    ensures Whole(EndpointLines(p))
  {
    if p.endpoint.Some? {
      LineWhole("Endpoint", "   ", p.endpoint.value);
      hide Line;
    }
  }

  lemma KeepaliveWhole(p: Peer)
    requires GoodPeer(p)
    ensures Whole(KeepaliveLines(p))
  {
    if p.keepalive.Some? {
      NumberReads(p.keepalive.value);
      LineWhole("PersistentKeepalive", " ", Decimal(p.keepalive.value));
      hide Line, Decimal;
    }
  }

  lemma PeerWhole(p: Peer)
    requires GoodPeer(p)
    ensures Whole(PeerLines(p))
  {
    JoinPlain(p.allowedIPs);
    EndpointWhole(p);
    KeepaliveWhole(p);
    LineWhole("PublicKey", "  ", p.publicKey);
    LineWhole("AllowedIPs", " ", Join(p.allowedIPs, ", "));
    assert Whole(["[Peer]"]) && Whole([""]);
    hide Line, EndpointLines, KeepaliveLines, Whole, GoodPeer, Join;
    var a, b := ["[Peer]"], [Line("PublicKey", "  ", p.publicKey)];
    var d, e := [Line("AllowedIPs", " ", Join(p.allowedIPs, ", "))], KeepaliveLines(p);
    WholeAppend(a, b);
    WholeAppend(a + b, EndpointLines(p));
    WholeAppend(a + b + EndpointLines(p), d);
    WholeAppend(a + b + EndpointLines(p) + d, e);
    WholeAppend(a + b + EndpointLines(p) + d + e, [""]);
  }

  lemma WholeAppend(a: seq<string>, b: seq<string>)
    requires Whole(a) && Whole(b)
    ensures Whole(a + b)
  {
  }

  lemma {:induction false} PeersWhole(ps: seq<Peer>)
    requires forall p <- ps :: GoodPeer(p)
    ensures Whole(AllPeerLines(ps))
    decreases |ps|
  {
    if ps != [] {
      PeersWhole(ps[..|ps| - 1]);
      PeerWhole(ps[|ps| - 1]);
      hide PeerLines;
    }
  }

  lemma HeadWhole(i: Interface)
    requires Unbroken(i.privateKey) && Unbroken(i.address) && Unbroken(i.listenPort)
    ensures Whole(HeadLines(i))
  {
    LineWhole("PrivateKey", " ", i.privateKey);
    LineWhole("Address", "    ", i.address);
    LineWhole("ListenPort", " ", i.listenPort);
    assert Unbroken("[Interface]");
    hide Line, Unbroken;
  }

  lemma {:induction false} ExtrasWhole(extras: seq<KeyValue>)
    requires forall kv <- extras :: GoodExtra(kv)
    ensures Whole(ExtraLines(extras))
  {
    forall i | 0 <= i < |extras| ensures Unbroken(ExtraLines(extras)[i]) {
      assert GoodExtra(extras[i]);
      LineWhole(extras[i].key, " ", extras[i].value);
      hide Line, Unbroken, GoodExtra;
      assert [ExtraLines(extras)[i]][0] == ExtraLines(extras)[i];
    }
  }

  lemma RenderWhole(c: Config)
    requires WellFormed(c) && forall p <- SortPeers(c.peers) :: GoodPeer(p)
    ensures Whole(RenderLines(c))
  {
    var i := c.interface;
    HeadWhole(i);
    ExtrasWhole(i.extras);
    PeersWhole(SortPeers(c.peers));
    assert Whole([""]);
    hide Whole, HeadLines, ExtraLines, AllPeerLines, SortPeers, GoodPeer, GoodExtra;
    WholeAppend(HeadLines(i), ExtraLines(i.extras));
    WholeAppend(HeadLines(i) + ExtraLines(i.extras), [""]);
    WholeAppend(HeadLines(i) + ExtraLines(i.extras) + [""], AllPeerLines(SortPeers(c.peers)));
  }

  /** The lines of the interface and the extras, as far as the blank line after them. */
  lemma TopFed(i: Interface)
    requires Trimmed(i.privateKey) && Trimmed(i.address) && Trimmed(i.listenPort) && forall kv <- i.extras :: GoodExtra(kv)
    ensures FeedAll(INIT, HeadLines(i) + ExtraLines(i.extras) + [""]) ==
      State(InInterface, i.privateKey, i.address, i.listenPort, i.extras, [], None)
  {
    var s0 := INIT.(section := InInterface, priv := i.privateKey, addr := i.address, listen := i.listenPort);
    assert Flush(INIT) == INIT && s0.extras + i.extras == i.extras;
    hide Feed, FeedAll, HeadLines, ExtraLines, GoodExtra, Flush;
    HeadFed(INIT, i);
    ExtrasFed(s0, i.extras);
    FeedAppend(INIT, HeadLines(i), ExtraLines(i.extras));
    FeedNext(INIT, HeadLines(i) + ExtraLines(i.extras), "");
    BlankLine(s0.(extras := i.extras));
  }

  /** All lines that are written, and the empty one that ends the text. */
  lemma RenderFed(c: Config)
    requires WellFormed(c) && forall p <- SortPeers(c.peers) :: GoodPeer(p)
    ensures Parsed(FeedAll(INIT, RenderLines(c) + [""])) == Some(c.(peers := SortPeers(c.peers)))
  {
    var i, ps := c.interface, SortPeers(c.peers);
    var top := HeadLines(i) + ExtraLines(i.extras) + [""];
    var s1 := State(InInterface, i.privateKey, i.address, i.listenPort, i.extras, [], None);
    assert RenderLines(c) + [""] == top + AllPeerLines(ps) + [""];
    assert s1.peers + ps == ps && Flush(s1) == s1;
    assert i.privateKey != "" && Trimmed(i.privateKey) && Trimmed(i.address) && Trimmed(i.listenPort);
    hide Feed, FeedAll, RenderLines, HeadLines, ExtraLines, AllPeerLines, SortPeers, GoodPeer, GoodExtra, Flush, Trimmed;
    TopFed(i);
    FeedAppend(INIT, top, AllPeerLines(ps));
    PeersFed(s1, ps);
    FeedNext(INIT, top + AllPeerLines(ps), "");
    BlankLine(FeedAll(s1, AllPeerLines(ps)));
  }

  /** The file that is written reads back as the same configuration, its peers in the order of their keys. */
  lemma ParseRender(c: Config)
    requires WellFormed(c)
    ensures Parse(Render(c)) == Some(c.(peers := SortPeers(c.peers)))
  {
    SortSorts(KeyOf, c.peers);
    forall p <- SortPeers(c.peers) ensures GoodPeer(p) { assert p in multiset(c.peers); }
    hide GoodPeer, GoodExtra, FeedAll, Whole, SortPeers, RenderLines, SplitLines, Unlines, Parsed;
    RenderWhole(c);
    LinesRead(RenderLines(c));
    RenderFed(c);
  }

  /** Reading the file and writing it again leaves it as it was. */
  lemma RenderStable(c: Config)
    requires WellFormed(c)
    ensures Parse(Render(c)).Some? && Render(Parse(Render(c)).value) == Render(c)
  {
    ParseRender(c);
    SortSorts(KeyOf, c.peers);
    SortKeeps(KeyOf, SortPeers(c.peers));
    hide Parse;
  }

  /** The bytes do not depend on the order of the peers when no two share a key. */
  lemma RenderForgets(c: Config, d: Config)
    requires c.interface == d.interface && multiset(c.peers) == multiset(d.peers) && DistinctKeys(c.peers)
    ensures Render(c) == Render(d)
  {
    forall i, j | 0 <= i < |c.peers| && 0 <= j < |c.peers| && KeyOf(c.peers[i]) == KeyOf(c.peers[j])
      ensures c.peers[i] == c.peers[j]
    {
      assert i == j;
    }
    SortForgets(KeyOf, c.peers, d.peers);
    hide SortBy;
  }

  // ---- Comparing ------------------------------------------------------------------------

  function EndpointText(p: Peer): string { if p.endpoint.Some? then p.endpoint.value else "" }

  function KeepaliveValue(p: Peer): int { if p.keepalive.Some? then p.keepalive.value else 0 }

  function IntText(n: int): string { if n < 0 then "-" + Decimal(-n) else Decimal(n) }

  function SemanticKey(p: Peer): string {
    p.publicKey + "|" + EndpointText(p) + "|" + Join(SortBy(Same, p.allowedIPs), ",") + "|" + IntText(KeepaliveValue(p))
  }

  function PeerKeys(ps: seq<Peer>): set<string> { set p <- ps :: SemanticKey(p) }

  function ExtraKeys(extras: seq<KeyValue>): set<string> { set kv <- extras :: Lower(kv.key) + "=" + kv.value }

  predicate SemanticallyEquals(a: Config, b: Config) {
    && a.interface.privateKey == b.interface.privateKey && a.interface.address == b.interface.address
    && a.interface.listenPort == b.interface.listenPort
    && ExtraKeys(a.interface.extras) == ExtraKeys(b.interface.extras)
    && PeerKeys(a.peers) == PeerKeys(b.peers)
  }

  /** What a peer's section means: the order of its addresses does not matter. */
  datatype Meaning = Meaning(publicKey: string, endpoint: string, allowedIPs: multiset<string>, keepalive: int)

  function MeaningOf(p: Peer): Meaning {
    Meaning(p.publicKey, EndpointText(p), multiset(p.allowedIPs), KeepaliveValue(p))
  }

  function PeerMeanings(ps: seq<Peer>): set<Meaning> { set p <- ps :: MeaningOf(p) }

  function ExtraMeanings(extras: seq<KeyValue>): set<KeyValue> { set kv <- extras :: KeyValue(Lower(kv.key), kv.value) }

  predicate SameMeaning(a: Config, b: Config) {
    && a.interface.privateKey == b.interface.privateKey && a.interface.address == b.interface.address
    && a.interface.listenPort == b.interface.listenPort
    && ExtraMeanings(a.interface.extras) == ExtraMeanings(b.interface.extras)
    && PeerMeanings(a.peers) == PeerMeanings(b.peers)
  }

  predicate Listed(p: Peer) { NoCommas(p.allowedIPs) }

  /** What every file that is read gives. */
  predicate Readable(c: Config) {
    && (forall kv <- c.interface.extras :: '=' !in kv.key) && (forall p <- c.peers :: Listed(p))
  }

  predicate Keyed(ps: seq<Peer>) { forall p <- ps :: p.publicKey != "" }

  predicate Barless(c: Config) { forall p <- c.peers :: '|' !in p.publicKey && '|' !in EndpointText(p) }

  lemma {:induction false} JoinSplits(s: seq<string>)
    requires forall x <- s :: ',' !in x
    ensures SplitOn(Join(s, ","), ',') == if s == [] then [""] else s
  {
    if |s| == 1 {
      SplitWhole(s[0], ',');
    } else if s != [] {
      JoinSplits(s[1..]);
      SplitHead(s[0], ',', Join(s[1..], ","));
      assert s[0] + "," + Join(s[1..], ",") == s[0] + [','] + Join(s[1..], ",");
      assert s == [s[0]] + s[1..];
    }
  }

  lemma IntTells(m: int, n: int)
    requires IntText(m) == IntText(n)
    ensures m == n
  {
    var a, b := if m < 0 then -m else m, if n < 0 then -n else n;
    DigitsOfDecimal(a);
    DigitsOfDecimal(b);
    hide Digits;
    assert Decimal(a)[0] != '-' && Decimal(b)[0] != '-';
    hide Decimal;
    assert m < 0 ==> IntText(m)[1..] == Decimal(a);
    assert n < 0 ==> IntText(n)[1..] == Decimal(b);
  }

  lemma IntBarless(n: int)
    ensures '|' !in IntText(n)
  {
    hide Decimal;
  }

  lemma CutAt(a: string, r: string, b: string, t: string)
    requires a + "|" + r == b + "|" + t && |a| == |b|
    ensures a == b && r == t
  {
    var w := a + "|" + r;
    assert w[..|a|] == a && w[|a| + 1..] == r && w[..|b|] == b && w[|b| + 1..] == t;
  }

  lemma CutLast(a: string, r: string, b: string, t: string)
    requires a + "|" + r == b + "|" + t && '|' !in r && '|' !in t
    ensures a == b && r == t
  {
    var w := a + "|" + r;
    assert w[|a|] == '|' && w[|b|] == '|';
    assert forall k :: |a| < k < |w| ==> w[k] == r[k - |a| - 1];
    assert forall k :: |b| < k < |w| ==> w[k] == t[k - |b| - 1];
    assert |a| == |b|;
    CutAt(a, r, b, t);
  }

  /** The addresses and the keepalive. */
  function Rest(p: Peer): string { Join(SortBy(Same, p.allowedIPs), ",") + "|" + IntText(KeepaliveValue(p)) }

  lemma KeyParts(p: Peer)
    ensures SemanticKey(p) == p.publicKey + "|" + (EndpointText(p) + "|" + Rest(p))
  {
    var a, e, s, m := p.publicKey, EndpointText(p), Join(SortBy(Same, p.allowedIPs), ","), IntText(KeepaliveValue(p));
    assert a + "|" + e + "|" + s + "|" + m == a + "|" + (e + "|" + (s + "|" + m));
  }

  predicate NoCommas(s: seq<string>) { forall ip <- s :: ip != "" && ',' !in ip }

  lemma {:induction false} ListsTell(s: seq<string>, t: seq<string>)
    requires NoCommas(s) && NoCommas(t) && Join(s, ",") == Join(t, ",")
    ensures s == t
  {
    JoinSplits(s);
    JoinSplits(t);
    assert s != [] ==> s[0] in s;
    assert t != [] ==> t[0] in t;
    hide Join, SplitOn;
    assert [""][0] == "";
  }

  lemma SortedNoCommas(a: seq<string>)
    requires NoCommas(a)
    ensures NoCommas(SortBy(Same, a))
  {
    SortSorts(Same, a);
    hide SortBy, Sorted;
    forall ip <- SortBy(Same, a) ensures ip in a { assert ip in multiset(a); }
  }

  lemma IpsTell(a: seq<string>, b: seq<string>)
    requires NoCommas(a) && NoCommas(b)
    ensures Join(SortBy(Same, a), ",") == Join(SortBy(Same, b), ",") <==> multiset(a) == multiset(b)
  {
    SortSorts(Same, a);
    SortSorts(Same, b);
    SortedNoCommas(a);
    SortedNoCommas(b);
    if multiset(a) == multiset(b) {
      SortForgets(Same, a, b);
    }
    hide Join, SortBy, Sorted, NoCommas;
    if Join(SortBy(Same, a), ",") == Join(SortBy(Same, b), ",") {
      ListsTell(SortBy(Same, a), SortBy(Same, b));
    }
  }

  /** The key tells the meaning exactly where it cuts in the same places. */
  lemma KeyTells(p: Peer, q: Peer)
    requires Listed(p) && Listed(q)
    ensures MeaningOf(p) == MeaningOf(q) <==>
      SemanticKey(p) == SemanticKey(q) && |p.publicKey| == |q.publicKey| && |EndpointText(p)| == |EndpointText(q)|
  {
    IpsTell(p.allowedIPs, q.allowedIPs);
    KeyParts(p);
    KeyParts(q);
    hide SemanticKey, Join, SortBy, EndpointText;
    if SemanticKey(p) == SemanticKey(q) && |p.publicKey| == |q.publicKey| && |EndpointText(p)| == |EndpointText(q)| {
      CutAt(p.publicKey, EndpointText(p) + "|" + Rest(p), q.publicKey, EndpointText(q) + "|" + Rest(q));
      CutAt(EndpointText(p), Rest(p), EndpointText(q), Rest(q));
      RestTells(p, q);
    }
  }

  lemma RestTells(p: Peer, q: Peer)
    requires Rest(p) == Rest(q)
    ensures Join(SortBy(Same, p.allowedIPs), ",") == Join(SortBy(Same, q.allowedIPs), ",")
    ensures KeepaliveValue(p) == KeepaliveValue(q)
  {
    var s, t := Join(SortBy(Same, p.allowedIPs), ","), Join(SortBy(Same, q.allowedIPs), ",");
    hide Join, SortBy, IntText;
    IntBarless(KeepaliveValue(p));
    IntBarless(KeepaliveValue(q));
    CutLast(s, IntText(KeepaliveValue(p)), t, IntText(KeepaliveValue(q)));
    IntTells(KeepaliveValue(p), KeepaliveValue(q));
  }

  lemma CutFirst(a: string, r: string, b: string, t: string)
    requires a + "|" + r == b + "|" + t && '|' !in a && '|' !in b
    ensures |a| == |b|
  {
    var w := a + "|" + r;
    assert w[|a|] == '|' && w[|b|] == '|';
    assert forall k :: 0 <= k < |a| ==> w[k] == a[k];
    assert forall k :: 0 <= k < |b| ==> w[k] == b[k];
  }

  lemma BarlessTells(p: Peer, q: Peer)
    requires Listed(p) && Listed(q)
    requires '|' !in p.publicKey && '|' !in q.publicKey && '|' !in EndpointText(p) && '|' !in EndpointText(q)
    ensures MeaningOf(p) == MeaningOf(q) <==> SemanticKey(p) == SemanticKey(q)
  {
    KeyTells(p, q);
    KeyParts(p);
    KeyParts(q);
    hide SemanticKey, Rest, EndpointText, MeaningOf;
    if SemanticKey(p) == SemanticKey(q) {
      CutFirst(p.publicKey, EndpointText(p) + "|" + Rest(p), q.publicKey, EndpointText(q) + "|" + Rest(q));
      CutAt(p.publicKey, EndpointText(p) + "|" + Rest(p), q.publicKey, EndpointText(q) + "|" + Rest(q));
      CutFirst(EndpointText(p), Rest(p), EndpointText(q), Rest(q));
    }
  }

  /** The comparison key and where its first two bars are. */
  datatype Cut = Cut(key: string, first: nat, second: nat)

  function CutOf(p: Peer): Cut { Cut(SemanticKey(p), |p.publicKey|, |EndpointText(p)|) }

  function Cuts(ps: seq<Peer>): set<Cut> { set p <- ps :: CutOf(p) }

  lemma CutsInclude(a: seq<Peer>, b: seq<Peer>)
    requires forall p <- a + b :: Listed(p)
    ensures Cuts(a) <= Cuts(b) <==> PeerMeanings(a) <= PeerMeanings(b)
    ensures Cuts(a) <= Cuts(b) ==> PeerKeys(a) <= PeerKeys(b)
  {
    forall p, q | p in a && q in b ensures MeaningOf(p) == MeaningOf(q) <==> CutOf(p) == CutOf(q) {
      assert p in a + b && q in a + b;
      KeyTells(p, q);
    }
    forall p: Peer ensures CutOf(p).key == SemanticKey(p) {}
    hide SemanticKey, MeaningOf, CutOf;
    if Cuts(a) <= Cuts(b) {
      forall p <- a ensures MeaningOf(p) in PeerMeanings(b) && SemanticKey(p) in PeerKeys(b) {
        assert CutOf(p) in Cuts(b);
        var q :| q in b && CutOf(q) == CutOf(p);
      }
    }
    if PeerMeanings(a) <= PeerMeanings(b) {
      forall p <- a ensures CutOf(p) in Cuts(b) { assert MeaningOf(p) in PeerMeanings(b); }
    }
  }

  lemma PeersInclude(a: seq<Peer>, b: seq<Peer>)
    requires forall p <- a + b :: Listed(p) && '|' !in p.publicKey && '|' !in EndpointText(p)
    ensures PeerKeys(a) <= PeerKeys(b) <==> PeerMeanings(a) <= PeerMeanings(b)
  {
    forall p, q | p in a && q in b ensures MeaningOf(p) == MeaningOf(q) <==> SemanticKey(p) == SemanticKey(q) {
      assert p in a + b && q in a + b;
      hide Listed, EndpointText, MeaningOf, SemanticKey;
      BarlessTells(p, q);
    }
    hide SemanticKey, MeaningOf;
    if PeerKeys(a) <= PeerKeys(b) {
      forall p <- a ensures MeaningOf(p) in PeerMeanings(b) { assert SemanticKey(p) in PeerKeys(b); }
    }
    if PeerMeanings(a) <= PeerMeanings(b) {
      forall p <- a ensures SemanticKey(p) in PeerKeys(b) { assert MeaningOf(p) in PeerMeanings(b); }
    }
  }

  lemma ExtrasInclude(a: seq<KeyValue>, b: seq<KeyValue>)
    requires forall kv <- a + b :: '=' !in kv.key
    ensures ExtraKeys(a) <= ExtraKeys(b) <==> ExtraMeanings(a) <= ExtraMeanings(b)
  {
    forall p, q | p in a && q in b && Lower(p.key) + "=" + p.value == Lower(q.key) + "=" + q.value
      ensures KeyValue(Lower(p.key), p.value) == KeyValue(Lower(q.key), q.value)
    {
      assert p in a + b && q in a + b;
      LowerKeeps(p.key);
      LowerKeeps(q.key);
      hide Lower, IndexOf;
      var w := Lower(p.key) + ['='] + p.value;
      IndexAfter(Lower(p.key), '=', p.value);
      IndexAfter(Lower(q.key), '=', q.value);
      assert w == Lower(q.key) + ['='] + q.value;
      assert w[..|Lower(p.key)|] == Lower(p.key) && w[|Lower(p.key)| + 1..] == p.value;
      assert w[..|Lower(q.key)|] == Lower(q.key) && w[|Lower(q.key)| + 1..] == q.value;
    }
    hide Lower;
    if ExtraKeys(a) <= ExtraKeys(b) {
      forall kv <- a ensures KeyValue(Lower(kv.key), kv.value) in ExtraMeanings(b) {
        assert Lower(kv.key) + "=" + kv.value in ExtraKeys(b);
      }
    }
    if ExtraMeanings(a) <= ExtraMeanings(b) {
      forall kv <- a ensures Lower(kv.key) + "=" + kv.value in ExtraKeys(b) {
        assert KeyValue(Lower(kv.key), kv.value) in ExtraMeanings(b);
      }
    }
  }

  lemma LowerKeeps(s: string)
    requires '=' !in s
    ensures '=' !in Lower(s)
  {
    forall i | 0 <= i < |s| ensures LowerChar(s[i]) != '=' { assert s[i] in s; }
  }

  /** Two configurations that were read mean the same exactly when the comparison says so and their keys
      are cut in the same places. */
  lemma MeansTheSame(a: Config, b: Config)
    requires Readable(a) && Readable(b)
    ensures SameMeaning(a, b) <==> SemanticallyEquals(a, b) && Cuts(a.peers) == Cuts(b.peers)
  {
    hide Listed, Cuts, PeerKeys, PeerMeanings, ExtraKeys, ExtraMeanings;
    CutsInclude(a.peers, b.peers);
    CutsInclude(b.peers, a.peers);
    ExtrasInclude(a.interface.extras, b.interface.extras);
    ExtrasInclude(b.interface.extras, a.interface.extras);
  }

  /** The comparison is right about configurations that were read and use no bar. */
  lemma ComparesMeaning(a: Config, b: Config)
    requires Readable(a) && Readable(b) && Barless(a) && Barless(b)
    ensures SemanticallyEquals(a, b) <==> SameMeaning(a, b)
  {
    hide Listed, EndpointText, PeerKeys, PeerMeanings, ExtraKeys, ExtraMeanings;
    PeersInclude(a.peers, b.peers);
    PeersInclude(b.peers, a.peers);
    ExtrasInclude(a.interface.extras, b.interface.extras);
    ExtrasInclude(b.interface.extras, a.interface.extras);
  }

  lemma SameKeys(p: Peer, q: Peer)
    requires p.publicKey == "a|b" && EndpointText(p) == "c" && q.publicKey == "a" && EndpointText(q) == "b|c"
    requires p.allowedIPs == q.allowedIPs && KeepaliveValue(p) == KeepaliveValue(q)
    ensures SemanticKey(p) == SemanticKey(q)
  {
    KeyParts(p);
    KeyParts(q);
    hide SemanticKey, EndpointText, SortBy, Join, IntText;
    var r := Rest(p);
    assert "a|b" + "|" + ("c" + "|" + r) == "a" + "|" + ("b|c" + "|" + r);
  }

  /** With a bar in a key the comparison can take two configurations for one. */
  lemma BarsConfuse(i: Interface)
    requires WellFormed(Config(i, []))
    ensures var a := Config(i, [Peer("a|b", Some("c"), ["d"], None)]);
      var b := Config(i, [Peer("a", Some("b|c"), ["d"], None)]);
      WellFormed(a) && WellFormed(b) && SemanticallyEquals(a, b) && !SameMeaning(a, b)
  {
    var p, q := Peer("a|b", Some("c"), ["d"], None), Peer("a", Some("b|c"), ["d"], None);
    assert GoodPeer(p) && GoodPeer(q);
    SameKeys(p, q);
    assert PeerKeys([p]) == {SemanticKey(p)} && PeerKeys([q]) == {SemanticKey(q)};
    assert MeaningOf(p) in PeerMeanings([p]) && MeaningOf(p) != MeaningOf(q);
    assert PeerMeanings([q]) == {MeaningOf(q)};
    hide SemanticKey, GoodPeer, GoodExtra;
  }

  /** A configuration compares equal to the file written for it. */
  lemma WrittenIsEqual(c: Config)
    requires WellFormed(c)
    ensures Parse(Render(c)).Some? && SemanticallyEquals(Parse(Render(c)).value, c)
  {
    ParseRender(c);
    SortSorts(KeyOf, c.peers);
    var ps := SortPeers(c.peers);
    hide Parse, Render, SemanticKey, GoodPeer, GoodExtra;
    forall p ensures p in ps <==> p in c.peers { assert p in multiset(ps) <==> p in multiset(c.peers); }
    assert PeerKeys(ps) == PeerKeys(c.peers);
  }

  // ---- What is read is readable ---------------------------------------------------------

  predicate ReadableState(st: State) {
    && (forall kv <- st.extras :: '=' !in kv.key) && (forall p <- st.peers :: Listed(p)) && Keyed(st.peers)
    && (st.cur.Some? ==> Listed(st.cur.value))
  }

  lemma {:induction false} TrimWithin(s: string)
    ensures forall c <- Trim(s) :: c in s
  {
    LeftWithin(s);
    RightWithin(TrimLeft(s));
  }

  lemma {:induction false} LeftWithin(s: string)
    ensures forall c <- TrimLeft(s) :: c in s
  {
    if s != "" && IsSpace(s[0]) {
      LeftWithin(s[1..]);
    }
  }

  lemma {:induction false} RightWithin(s: string)
    ensures forall c <- TrimRight(s) :: c in s
    decreases |s|
  {
    if s != "" && IsSpace(s[|s| - 1]) {
      RightWithin(s[..|s| - 1]);
    }
  }

  lemma {:induction false} SplitParts(s: string, sep: char)
    ensures forall part <- SplitOn(s, sep) :: sep !in part
  {
    if s != "" {
      SplitParts(s[1..], sep);
    }
  }

  lemma {:induction false} NonEmptyWithin(s: seq<string>)
    ensures forall x <- NonEmpty(s) :: x != "" && x in s
  {
    if s != [] {
      NonEmptyWithin(s[1..]);
    }
  }

  lemma ListListed(value: string)
    ensures forall ip <- AllowedList(value) :: ip != "" && ',' !in ip
  {
    var parts := SplitOn(value, ',');
    SplitParts(value, ',');
    NonEmptyWithin(TrimAll(parts));
    hide Trim, SplitOn;
    forall ip <- AllowedList(value) ensures ip != "" && ',' !in ip {
      var i :| 0 <= i < |parts| && ip == Trim(parts[i]);
      TrimWithin(parts[i]);
      assert parts[i] in parts;
    }
  }

  lemma {:induction false} BeforeIndex(s: string, c: char)
    requires IndexOf(s, c).Some?
    ensures c !in s[..IndexOf(s, c).value]
  {
    if s[0] != c {
      BeforeIndex(s[1..], c);
      assert s[..IndexOf(s, c).value] == [s[0]] + s[1..][..IndexOf(s[1..], c).value];
    }
  }

  lemma AssignReadable(st: State, key: string, value: string)
    requires ReadableState(st) && '=' !in key
    ensures ReadableState(Assign(st, key, value))
  {
    ListListed(value);
    hide AllowedList, ParseInt, Lower;
  }

  lemma FeedReadable(st: State, raw: string)
    requires ReadableState(st)
    ensures ReadableState(Feed(st, raw))
  {
    var line := Trim(raw);
    hide Trim, Assign, Lower;
    if line != "" && line[0] != '#' && line[0] != '[' {
      var eq := IndexOf(line, '=');
      if eq.Some? {
        BeforeIndex(line, '=');
        TrimWithin(line[..eq.value]);
        hide IndexOf, ReadableState;
        AssignReadable(st, Trim(line[..eq.value]), Trim(line[eq.value + 1..]));
      }
    }
  }

  lemma {:induction false} FeedAllReadable(lines: seq<string>)
    ensures ReadableState(FeedAll(INIT, lines))
    decreases |lines|
  {
    hide Feed;
    if lines != [] {
      FeedAllReadable(lines[..|lines| - 1]);
      FeedReadable(FeedAll(INIT, lines[..|lines| - 1]), lines[|lines| - 1]);
    }
  }

  /** Every file that is read gives a readable configuration with a private key, and no peer without a key. */
  lemma ParseReadable(text: string)
    ensures Parse(text).Some? ==>
      Readable(Parse(text).value) && Parse(text).value.interface.privateKey != "" && Keyed(Parse(text).value.peers)
  {
    FeedAllReadable(SplitLines(text));
    hide FeedAll, SplitLines, Listed;
  }

  /** Two files mean the same exactly when they compare equal and their keys are cut in the same places;
      the comparison alone tells when no key or endpoint holds a bar. */
  lemma FilesCompare(a: string, b: string)
    requires Parse(a).Some? && Parse(b).Some?
    ensures var c, d := Parse(a).value, Parse(b).value;
      && (SameMeaning(c, d) <==> SemanticallyEquals(c, d) && Cuts(c.peers) == Cuts(d.peers))
      && (Barless(c) && Barless(d) ==> (SemanticallyEquals(c, d) <==> SameMeaning(c, d)))
  {
    ParseReadable(a);
    ParseReadable(b);
    hide Parse, Barless, Readable, SemanticallyEquals, SameMeaning, Cuts;
    MeansTheSame(Parse(a).value, Parse(b).value);
    if Barless(Parse(a).value) && Barless(Parse(b).value) {
      ComparesMeaning(Parse(a).value, Parse(b).value);
    }
  }

  // ---- What is skipped ------------------------------------------------------------------

  /** Nothing but blanks, or a comment. */
  ghost predicate Skipped(line: string) { Blank(line) || (exists a, b :: Blank(a) && line == a + "#" + b) }

  lemma {:induction false} TrimLeftMarks(a: string, b: string)
    requires Blank(a)
    ensures TrimLeft(a + "#" + b) == "#" + b
  {
    TrimLeftOf(a, "#" + b);
    assert a + "#" + b == a + ("#" + b);
  }

  lemma {:induction false} TrimRightMarks(b: string)
    ensures TrimRight("#" + b) != "" && TrimRight("#" + b)[0] == '#'
    decreases |b|
  {
    var s := "#" + b;
    if b != "" && IsSpace(b[|b| - 1]) {
      assert s[..|s| - 1] == "#" + b[..|b| - 1];
      TrimRightMarks(b[..|b| - 1]);
    }
  }

  lemma SkippedLine(st: State, line: string)
    requires Skipped(line)
    ensures Feed(st, line) == st
  {
    if Blank(line) {
      TrimOf(line, "", "");
      assert line + "" + "" == line;
    } else {
      var a, b :| Blank(a) && line == a + "#" + b;
      TrimLeftMarks(a, b);
      TrimRightMarks(b);
    }
    hide Trim;
  }

  /** Blank lines and comments may stand anywhere. */
  lemma CommentsSkipped(st: State, before: seq<string>, line: string, after: seq<string>)
    requires Skipped(line)
    ensures FeedAll(st, before + [line] + after) == FeedAll(st, before + after)
  {
    FeedNext(st, before, line);
    SkippedLine(FeedAll(st, before), line);
    FeedAppend(st, before + [line], after);
    FeedAppend(st, before, after);
    hide Feed, FeedAll;
  }
}
