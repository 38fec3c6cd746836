/**
 What the multi-node builder computes for its nodes besides files: ports, peers, configurations,
 stakes and the bank supply.
*/
module Nodes {
  import opened Base
  import opened Sums
  import opened Text

  // ----- ports -----

  datatype Service = Rpc | P2p | Proxy | Grpc | Api | Prometheus

  /** The default port of a service on node i. */
  function PortOf(s: Service, i: nat): int {
    match s
    case Rpc => 26657 - 3 * i
    case P2p => 26656 - 3 * i
    case Proxy => 26658 - 3 * i
    case Grpc => 9090 - 2 * i
    case Api => 1317 - i
    case Prometheus => 26660 + i
  }

  /** The ports of the first two nodes. */
  lemma FirstTwoNodes()
    ensures PortOf(Rpc, 0) == 26657 && PortOf(P2p, 0) == 26656 && PortOf(Proxy, 0) == 26658
    ensures PortOf(Grpc, 0) == 9090 && PortOf(Api, 0) == 1317 && PortOf(Prometheus, 0) == 26660
    ensures PortOf(Rpc, 1) == 26654 && PortOf(P2p, 1) == 26653 && PortOf(Proxy, 1) == 26655
    ensures PortOf(Grpc, 1) == 9088 && PortOf(Api, 1) == 1316 && PortOf(Prometheus, 1) == 26661
  {
  }

  ghost predicate Distinct(services: set<Service>, n: nat) {
    forall s, t, i: nat, j: nat ::
      s in services && t in services && i < n && j < n && PortOf(s, i) == PortOf(t, j) ==> s == t && i == j
  }

  ghost predicate Valid(n: nat) {
    forall s, i: nat :: i < n ==> 1 <= PortOf(s, i) <= 65535
  }

  /** The three families that step by three never meet, however many nodes there are. */
  lemma ConsensusPortsDistinct(n: nat)
    ensures Distinct({Rpc, P2p, Proxy}, n)
  {
    forall s, t, i: nat, j: nat |
      s in {Rpc, P2p, Proxy} && t in {Rpc, P2p, Proxy} && i < n && j < n && PortOf(s, i) == PortOf(t, j)
      ensures s == t && i == j
    {
      assert s == Rpc || s == P2p || s == Proxy;
      assert t == Rpc || t == P2p || t == Proxy;
    }
  }

  /** All six families are distinct and usable exactly up to 1317 nodes. */
  lemma PortsUsableIff(n: nat)
    ensures Valid(n) && Distinct({Rpc, P2p, Proxy, Grpc, Api, Prometheus}, n) <==> n <= 1317
  {
    if n > 1317 {
      assert PortOf(Api, 1317) == 0;
    }
  }

  function Numbered<T>(xs: seq<T>): map<int, T> { map i | 0 <= i < |xs| :: xs[i] }

  /** RPC ports by node: the default family when the flag is empty, else the flag's pieces as they are. */
  method ParsePorts(flag: string, n: nat) returns (ports: map<int, string>)
    ensures flag == "" ==> ports == map i: int | 0 <= i < n :: Itoa(26657 - 3 * i)
    ensures flag != "" ==> ports == Numbered(Split(flag, ','))
  {
    ports := map[];
    if flag == "" {
      for i := 0 to n
        invariant ports == map j: int | 0 <= j < i :: Itoa(26657 - 3 * j)
      {
        ports := ports[i := Itoa(26657 - 3 * i)];
      }
    } else {
      var pieces := Split(flag, ',');
      for top := 0 to |pieces|
        invariant ports == Numbered(pieces[..top])
      {
        ports := ports[top := pieces[top]];
      }
      assert pieces[..|pieces|] == pieces;
    }
  }

  // ----- peers -----

  function Memo(id: string, ip: string, i: nat): string { id + "@" + ip + ":" + Itoa(PortOf(P2p, i)) }

  function Memos(ids: seq<string>, ip: string): (r: seq<string>)
    ensures |r| == |ids| && forall i :: 0 <= i < |ids| ==> r[i] == Memo(ids[i], ip, i)
  {
    seq(|ids|, i requires 0 <= i < |ids| => Memo(ids[i], ip, i))
  }

  lemma JoinNone()
    ensures Join([], ',') == ""
  {
  }

  lemma JoinNext(xs: seq<string>, i: nat)
    requires i < |xs|
    ensures Join(xs[..i + 1], ',') == if i == 0 then xs[0] else Join(xs[..i], ',') + "," + xs[i]
  {
    assert xs[..i + 1][..i] == xs[..i];
  }

  /** Accumulates the nodes' memos, separated by commas. */
  method BuildPeers(ids: seq<string>, ip: string) returns (persistentPeers: string)
    ensures persistentPeers == Join(Memos(ids, ip), ',')
  {
    hide Itoa, Join;
    persistentPeers := "";
    JoinNone();
    var memos := Memos(ids, ip);
    for i := 0 to |ids|
      invariant persistentPeers == Join(memos[..i], ',')
      invariant i > 0 ==> persistentPeers != ""
    {
      var memo := ids[i] + "@" + ip + ":" + Itoa(26656 - 3 * i);
      assert memo == memos[i];
      JoinNext(memos, i);
      if persistentPeers == "" {
        persistentPeers := memo;
      } else {
        persistentPeers := persistentPeers + "," + memo;
      }
    }
    assert memos[..|ids|] == memos;
  }

  datatype Peer = Peer(id: string, ip: string, port: int)

  /** The position of the first c, or the length. */
  function IndexOf(s: string, c: char): (i: nat)
    ensures i <= |s| && c !in s[..i] && (i < |s| ==> s[i] == c)
  {
    if s == [] || s[0] == c then 0 else 1 + IndexOf(s[1..], c)
  }

  /** The position of the last c, or 0. */
  function LastIndexOf(s: string, c: char): (i: nat)
    ensures i <= |s| && (c in s ==> i < |s| && s[i] == c && c !in s[i + 1..])
  {
    if s == [] then 0
    else if s[|s| - 1] == c then |s| - 1
    else
      var i := LastIndexOf(s[..|s| - 1], c);
      assert c in s ==> s[i + 1..] == s[..|s| - 1][i + 1..] + [s[|s| - 1]];
      i
  }

  /** Reads id@ip:port, cutting at the first "@" and the last ":". */
  function ParsePeer(s: string): Option<Peer> {
    var at := IndexOf(s, '@');
    if at == |s| then None
    else
      var address := s[at + 1..];
      if ':' !in address then None
      else
        var colon := LastIndexOf(address, ':');
        Some(Peer(s[..at], address[..colon], Atoi(address[colon + 1..])))
  }

  lemma FirstIs(s: string, t: string, c: char)
    requires c !in s
    ensures IndexOf(s + [c] + t, c) == |s|
  {
    var u := s + [c] + t;
    var i := IndexOf(u, c);
    assert u[|s|] == c;
    forall k | 0 <= k < i ensures u[k] != c {
      assert u[..i][k] == u[k];
    }
    forall k | 0 <= k < |s| ensures u[k] != c {
      assert u[k] == s[k];
    }
  }

  /** What comes after position i of a text, seen from the whole text. */
  lemma AfterAt(u: string, i: nat, k: nat, c: char)
    requires i < k < |u| && c !in u[i + 1..]
    ensures u[k] != c
  {
    var rest := u[i + 1..];
    assert rest[k - i - 1] == u[k];
  }

  /** A position that holds c with no c after it is the last one. */
  lemma LastUnique(u: string, i: nat, j: nat, c: char)
    requires i < |u| && u[i] == c && c !in u[i + 1..]
    requires j < |u| && u[j] == c && c !in u[j + 1..]
    ensures i == j
  {
    if i < j {
      AfterAt(u, i, j, c);
    } else if j < i {
      AfterAt(u, j, i, c);
    }
  }

  lemma LastIs(s: string, t: string, c: char)
    requires c !in t
    ensures LastIndexOf(s + [c] + t, c) == |s|
  {
    var u := s + [c] + t;
    assert u[|s|] == c && u[|s| + 1..] == t;
    LastUnique(u, LastIndexOf(u, c), |s|, c);
  }

  lemma CutFirst(id: string, address: string)
    requires '@' !in id
    ensures var s := id + ['@'] + address;
      IndexOf(s, '@') == |id| && s[..|id|] == id && s[|id| + 1..] == address
  {
    FirstIs(id, address, '@');
  }

  lemma CutLast(ip: string, port: string)
    requires ':' !in port
    ensures var s := ip + [':'] + port;
      ':' in s && LastIndexOf(s, ':') == |ip| && s[..|ip|] == ip && s[|ip| + 1..] == port
  {
    LastIs(ip, port, ':');
    assert (ip + [':'] + port)[|ip|] == ':';
  }

  lemma ParseText(id: string, ip: string, port: string)
    requires '@' !in id && ':' !in port
    ensures ParsePeer(id + "@" + ip + ":" + port) == Some(Peer(id, ip, Atoi(port)))
  {
    hide ParsePeer, Atoi;
    PeerText(id, ip, port);
    ParseCut(id, ip, port);
  }

  lemma PeerText(id: string, ip: string, port: string)
    ensures id + "@" + ip + ":" + port == id + ['@'] + (ip + [':'] + port)
  {
  }

  lemma ParseCut(id: string, ip: string, port: string)
    requires '@' !in id && ':' !in port
    ensures ParsePeer(id + ['@'] + (ip + [':'] + port)) == Some(Peer(id, ip, Atoi(port)))
  {
    hide ParsePeer, IndexOf, LastIndexOf, Atoi;
    var address := ip + [':'] + port;
    CutFirst(id, address);
    CutLast(ip, port);
    ParseAt(id + ['@'] + address, address);
  }

  lemma ParseAt(s: string, address: string)
    requires IndexOf(s, '@') < |s| && address == s[IndexOf(s, '@') + 1..] && ':' in address
    ensures var colon := LastIndexOf(address, ':');
      ParsePeer(s) == Some(Peer(s[..IndexOf(s, '@')], address[..colon], Atoi(address[colon + 1..])))
  {
  }

  lemma ParseMemo(id: string, ip: string, i: nat)
    requires '@' !in id
    ensures ParsePeer(Memo(id, ip, i)) == Some(Peer(id, ip, PortOf(P2p, i)))
  {
    AtoiItoa(PortOf(P2p, i));
    ParseText(id, ip, Itoa(PortOf(P2p, i)));
  }

  /** The address part of a memo. */
  function AddressOf(ip: string, i: nat): string { ip + ":" + Itoa(PortOf(P2p, i)) }

  /**
   A reader that splits at every "@" and then at every ":" finds the three parts exactly when the
   id has no "@" and the address has neither character.
  */
  lemma MemoSplitsIff(id: string, ip: string, i: nat)
    ensures Split(Memo(id, ip, i), '@') == [id, AddressOf(ip, i)] &&
            Split(AddressOf(ip, i), ':') == [ip, Itoa(PortOf(P2p, i))] <==>
            '@' !in id && '@' !in ip && ':' !in ip
  {
    hide Itoa;
    var port := Itoa(PortOf(P2p, i));
    AtoiItoa(PortOf(P2p, i));
    MemoIsJoin(id, ip, i);
    SplitJoinIff([id, AddressOf(ip, i)], '@');
    SplitJoinIff([ip, port], ':');
    assert '@' in AddressOf(ip, i) <==> '@' in ip;
    FreePair('@', id, AddressOf(ip, i));
    FreePair(':', ip, port);
  }

  lemma FreePair(sep: char, x: string, y: string)
    ensures Free(sep, [x, y]) <==> sep !in x && sep !in y
  {
    assert [x, y][0] == x && [x, y][1] == y;
  }

  lemma MemoIsJoin(id: string, ip: string, i: nat)
    ensures Memo(id, ip, i) == Join([id, AddressOf(ip, i)], '@')
    ensures AddressOf(ip, i) == Join([ip, Itoa(PortOf(P2p, i))], ':')
  {
    hide Itoa;
    JoinPair(id, AddressOf(ip, i), '@');
    JoinPair(ip, Itoa(PortOf(P2p, i)), ':');
    assert Memo(id, ip, i) == id + ['@'] + AddressOf(ip, i);
  }

  lemma JoinPair(x: string, y: string, sep: char)
    ensures Join([x, y], sep) == x + [sep] + y
  {
    assert [x, y][..1] == [x];
  }

  lemma CommaInMemo(id: string, ip: string, i: nat)
    ensures ',' in Memo(id, ip, i) <==> ',' in id || ',' in ip
  {
    AtoiItoa(PortOf(P2p, i));
    assert Memo(id, ip, i) == id + (['@'] + ip + [':'] + Itoa(PortOf(P2p, i)));
  }

  /** Cutting the peer list at its commas gives the memos back exactly when no id and no ip has one. */
  lemma PeersSplitIff(ids: seq<string>, ip: string)
    ensures Split(Join(Memos(ids, ip), ','), ',') == Memos(ids, ip) <==>
            ids != [] && ',' !in ip && forall i :: 0 <= i < |ids| ==> ',' !in ids[i]
  {
    SplitJoinIff(Memos(ids, ip), ',');
    forall i | 0 <= i < |ids| ensures ',' in Memos(ids, ip)[i] <==> ',' in ids[i] || ',' in ip {
      CommaInMemo(ids[i], ip, i);
    }
    if ids != [] {
      assert ',' in Memos(ids, ip)[0] <==> ',' in ids[0] || ',' in ip;
    }
  }

  // ----- configurations -----

  /** `other` stands for the settings that the loop does not touch. */
  datatype Config = Config(moniker: string, root: string, peers: string, allowDuplicateIp: bool, p2p: string,
                           rpc: string, proxy: string, prometheusAddr: string, prometheus: bool, other: string)

  /** The one configuration object that the builder changes from node to node. */
  class NodeConfig {
    var moniker: string
    var root: string
    var peers: string
    var allowDuplicateIp: bool
    var p2p: string
    var rpc: string
    var proxy: string
    var prometheusAddr: string
    var prometheus: bool
    var other: string

    function Current(): Config
      reads this
    {
      Config(moniker, root, peers, allowDuplicateIp, p2p, rpc, proxy, prometheusAddr, prometheus, other)
    }
  }

  function ConfigOf(prefix: string, out: string, peers: string, ports: map<int, string>, other: string,
                    i: nat): Config
  {
    var rpc := if i in ports then ports[i] else "";
    var name := prefix + Itoa(i);
    Config(name, out + "/" + name, peers, true, "tcp://0.0.0.0:" + Itoa(PortOf(P2p, i)),
           "tcp://127.0.0.1:" + rpc, "tcp://127.0.0.1:" + Itoa(PortOf(Proxy, i)),
           ":" + Itoa(PortOf(Prometheus, i)), true, other)
  }

  /** Sets what depends on the node: of the object's old contents only the untouched settings remain. */
  method Configure(c: NodeConfig, i: nat, prefix: string, out: string, peers: string, ports: map<int, string>)
    modifies c
    ensures c.Current() == ConfigOf(prefix, out, peers, ports, old(c.other), i)
  {
    hide Itoa;
    c.moniker := prefix + Itoa(i);
    c.root := out + "/" + c.moniker;
    c.peers := peers;
    c.allowDuplicateIp := true;
    c.p2p := "tcp://0.0.0.0:" + Itoa(26656 - 3 * i);
    c.rpc := "tcp://127.0.0.1:" + if i in ports then ports[i] else "";
    c.proxy := "tcp://127.0.0.1:" + Itoa(26658 - 3 * i);
    c.prometheusAddr := ":" + Itoa(26660 + i);
    c.prometheus := true;
  }

  /** What a listening setting says of its port: the text after the last ":". */
  function PortText(setting: string): string {
    if ':' in setting then setting[LastIndexOf(setting, ':') + 1..] else ""
  }

  /** The port that a listening setting ends in. */
  function Port(setting: string): int { Atoi(PortText(setting)) }

  lemma PortAfter(host: string, port: string)
    requires ':' !in port
    ensures PortText(host + ":" + port) == port
  {
    CutLast(host, port);
  }

  lemma NumberAfter(host: string, n: int)
    ensures Port(host + ":" + Itoa(n)) == n
  {
    hide Itoa, Atoi, PortText;
    AtoiItoa(n);
    PortAfter(host, Itoa(n));
  }

  /** The settings of a configuration that a node listens on. */
  function Listening(c: Config): seq<string> { [c.rpc, c.p2p, c.proxy, c.prometheusAddr] }

  /** The ports that node i listens on when its RPC port is the default. */
  function DefaultPorts(i: nat): seq<int> { [26657 - 3 * i, 26656 - 3 * i, 26658 - 3 * i, 26660 + i] }

  /** Digits without a leading zero that read as i. */
  ghost predicate Numeral(s: string, i: nat) {
    (forall c :: c in s ==> '0' <= c <= '9') && Atoi(s) == i && ("0" <= s <==> i == 0)
  }

  /** What the builder sets for node i, setting by setting. */
  ghost predicate SetFor(c: Config, prefix: string, out: string, peers: string, ports: map<int, string>, i: nat) {
    && prefix <= c.moniker && Numeral(c.moniker[|prefix|..], i)
    && c.root == out + "/" + c.moniker
    && c.peers == peers && c.allowDuplicateIp && c.prometheus
    && "tcp://0.0.0.0:" <= c.p2p && Port(c.p2p) == 26656 - 3 * i
    && c.rpc == "tcp://127.0.0.1:" + (if i in ports then ports[i] else "")
    && (i in ports && ':' !in ports[i] ==> PortText(c.rpc) == ports[i])
    && "tcp://127.0.0.1:" <= c.proxy && Port(c.proxy) == 26658 - 3 * i
    && ":" <= c.prometheusAddr && Port(c.prometheusAddr) == 26660 + i
  }

  lemma MonikerOf(prefix: string, i: nat)
    ensures prefix <= prefix + Itoa(i) && Numeral((prefix + Itoa(i))[|prefix|..], i)
  {
    hide Atoi;
    AtoiItoa(i);
    NoLeadingZero(i);
    assert (prefix + Itoa(i))[|prefix|..] == Itoa(i);
  }

  lemma RpcPort(port: string)
    ensures ':' !in port ==> PortText("tcp://127.0.0.1:" + port) == port
  {
    if ':' !in port {
      PortAfter("tcp://127.0.0.1", port);
      assert "tcp://127.0.0.1" + ":" + port == "tcp://127.0.0.1:" + port;
    }
  }

  lemma NumberPorts(p2p: int, proxy: int, prometheus: int)
    ensures Port("tcp://0.0.0.0:" + Itoa(p2p)) == p2p
    ensures Port("tcp://127.0.0.1:" + Itoa(proxy)) == proxy
    ensures Port(":" + Itoa(prometheus)) == prometheus
  {
    hide Itoa, Port;
    NumberAfter("tcp://0.0.0.0", p2p);
    NumberAfter("tcp://127.0.0.1", proxy);
    NumberAfter("", prometheus);
    assert "tcp://0.0.0.0" + ":" + Itoa(p2p) == "tcp://0.0.0.0:" + Itoa(p2p);
    assert "tcp://127.0.0.1" + ":" + Itoa(proxy) == "tcp://127.0.0.1:" + Itoa(proxy);
    assert "" + ":" + Itoa(prometheus) == ":" + Itoa(prometheus);
  }

  lemma ConfigSetFor(prefix: string, out: string, peers: string, ports: map<int, string>, other: string, i: nat)
    ensures SetFor(ConfigOf(prefix, out, peers, ports, other, i), prefix, out, peers, ports, i)
  {
    hide Itoa, Numeral, Port, PortText;
    MonikerOf(prefix, i);
    RpcPort(if i in ports then ports[i] else "");
    NumberPorts(26656 - 3 * i, 26658 - 3 * i, 26660 + i);
  }

  /**
   With the default RPC table every setting that any node listens on has a port of its own, however
   many nodes there are.
  */
  lemma ListenersApart(written: seq<Config>, prefix: string, out: string, peers: string, ports: map<int, string>)
    requires ports == map i: int | 0 <= i < |written| :: Itoa(26657 - 3 * i)
    requires forall i: nat :: i < |written| ==> SetFor(written[i], prefix, out, peers, ports, i)
    ensures forall i: nat, a: nat, j: nat, b: nat ::
      i < |written| && j < |written| && a < 4 && b < 4 && (i, a) != (j, b) ==>
        Port(Listening(written[i])[a]) != Port(Listening(written[j])[b])
  {
    hide SetFor, Port;
    forall i: nat | i < |written|
      ensures forall a: nat :: a < 4 ==> Port(Listening(written[i])[a]) == DefaultPorts(i)[a]
    {
      DefaultListens(written[i], prefix, out, peers, ports, i);
    }
  }

  lemma DefaultListens(c: Config, prefix: string, out: string, peers: string, ports: map<int, string>, i: nat)
    requires i in ports && ports[i] == Itoa(26657 - 3 * i) && SetFor(c, prefix, out, peers, ports, i)
    ensures forall a: nat :: a < 4 ==> Port(Listening(c)[a]) == DefaultPorts(i)[a]
  {
    hide Itoa, Atoi, PortText;
    AtoiItoa(26657 - 3 * i);
    assert forall d :: IsDigit(d) || d == '-' ==> d != ':';
  }

  lemma OtherOf(prefix: string, out: string, peers: string, ports: map<int, string>, other: string, i: nat)
    ensures ConfigOf(prefix, out, peers, ports, other, i).other == other
  {
  }

  /** Writes each node's configuration from the shared object. */
  method WriteConfigs(c: NodeConfig, n: nat, prefix: string, out: string, peers: string, ports: map<int, string>)
    returns (written: seq<Config>)
    modifies c
    ensures c.other == old(c.other)
    ensures |written| == n
    ensures forall i: nat :: i < n ==>
      SetFor(written[i], prefix, out, peers, ports, i) && written[i].other == old(c.other)
    ensures ports == (map i: int | 0 <= i < n :: Itoa(26657 - 3 * i)) ==>
      forall i: nat, a: nat, j: nat, b: nat :: i < n && j < n && a < 4 && b < 4 && (i, a) != (j, b) ==>
        Port(Listening(written[i])[a]) != Port(Listening(written[j])[b])
  {
    hide ConfigOf, SetFor, Itoa, Port, Listening;
    written := [];
    for i := 0 to n
      invariant c.other == old(c.other) && |written| == i
      invariant forall j: nat :: j < i ==>
        SetFor(written[j], prefix, out, peers, ports, j) && written[j].other == old(c.other)
    {
      Configure(c, i, prefix, out, peers, ports);
      OtherOf(prefix, out, peers, ports, old(c.other), i);
      ConfigSetFor(prefix, out, peers, ports, old(c.other), i);
      written := written + [c.Current()];
    }
    if ports == map i: int | 0 <= i < n :: Itoa(26657 - 3 * i) {
      ListenersApart(written, prefix, out, peers, ports);
    }
  }

  /** The peer list as every node reads it names each node with the port that node listens on. */
  lemma PeersReachListeners(ids: seq<string>, ip: string, prefix: string, out: string, ports: map<int, string>,
                            other: string, i: nat)
    requires i < |ids| && ',' !in ip
    requires forall j :: 0 <= j < |ids| ==> ',' !in ids[j] && '@' !in ids[j]
    ensures var peers := Join(Memos(ids, ip), ',');
      var pieces := Split(ConfigOf(prefix, out, peers, ports, other, i).peers, ',');
      && |pieces| == |ids|
      && forall j :: 0 <= j < |ids| ==>
           && ParsePeer(pieces[j]).Some?
           && ParsePeer(pieces[j]).value.id == ids[j] && ParsePeer(pieces[j]).value.ip == ip
           && ConfigOf(prefix, out, peers, ports, other, j).p2p ==
              "tcp://0.0.0.0:" + Itoa(ParsePeer(pieces[j]).value.port)
  {
    hide Itoa, ParsePeer;
    PeersSplitIff(ids, ip);
    forall j | 0 <= j < |ids|
      ensures ParsePeer(Memos(ids, ip)[j]) == Some(Peer(ids[j], ip, PortOf(P2p, j)))
    {
      ParseMemo(ids[j], ip, j);
    }
  }

  /** The address that the j-th entry of the peer list names. */
  function AddressNamed(ids: seq<string>, ip: string, j: nat): Option<string> {
    var pieces := Split(Join(Memos(ids, ip), ','), ',');
    if j < |pieces| && ParsePeer(pieces[j]).Some? then Some(ParsePeer(pieces[j]).value.ip) else None
  }

  /**
   The help of the flag shows a new address for each node. The list names pairwise different
   addresses exactly when there is at most one node: all entries name the starting address.
  */
  lemma AddressesDifferIff(ids: seq<string>, ip: string)
    requires ',' !in ip && forall j :: 0 <= j < |ids| ==> ',' !in ids[j] && '@' !in ids[j]
    ensures forall j: nat :: j < |ids| ==> AddressNamed(ids, ip, j) == Some(ip)
    ensures (forall i: nat, j: nat :: i < j < |ids| ==> AddressNamed(ids, ip, i) != AddressNamed(ids, ip, j)) <==>
            |ids| <= 1
  {
    hide Itoa, ParsePeer;
    forall j: nat | j < |ids| ensures AddressNamed(ids, ip, j) == Some(ip) {
      PeersSplitIff(ids, ip);
      ParseMemo(ids[j], ip, j);
    }
    if |ids| > 1 {
      assert AddressNamed(ids, ip, 0) == AddressNamed(ids, ip, 1);
    }
  }

  /** Two nodes started at 192.168.0.1 are both at 192.168.0.1. */
  lemma TwoNodesOneAddress()
    ensures AddressNamed(["a", "b"], "192.168.0.1", 0) == Some("192.168.0.1")
    ensures AddressNamed(["a", "b"], "192.168.0.1", 1) == Some("192.168.0.1")
  {
    AddressesDifferIff(["a", "b"], "192.168.0.1");
  }

  // ----- stakes -----

  /** The amounts that can be read, in order. */
  function ReadableAmounts(parse: string -> Option<int>, amounts: seq<string>): seq<int> {
    if amounts == [] then []
    else
      var s := amounts[|amounts| - 1];
      ReadableAmounts(parse, amounts[..|amounts| - 1]) + if parse(s).Some? then [parse(s).value] else []
  }

  /** An unreadable amount is skipped without counting; a negative one panics. */
  method ParseStakes(parse: string -> Option<int>, amounts: seq<string>)
    returns (panicked: bool, stakes: map<int, int>)
    ensures panicked <==> exists x :: x in ReadableAmounts(parse, amounts) && x < 0
    ensures !panicked ==> stakes == Numbered(ReadableAmounts(parse, amounts))
  {
    stakes := map[];
    var top := 0;
    for i := 0 to |amounts|
      invariant top == |ReadableAmounts(parse, amounts[..i])|
      invariant stakes == Numbered(ReadableAmounts(parse, amounts[..i]))
      invariant forall x :: x in ReadableAmounts(parse, amounts[..i]) ==> x >= 0
    {
      assert amounts[..i + 1][..i] == amounts[..i];
      var a := parse(amounts[i]);
      if a.None? {
        continue;
      }
      if a.value < 0 {
        assert a.value in ReadableAmounts(parse, amounts[..i + 1]);
        ReadableExtends(parse, amounts, i + 1, a.value);
        return true, stakes;
      }
      stakes := stakes[top := a.value];
      top := top + 1;
    }
    assert amounts[..|amounts|] == amounts;
    panicked := false;
  }

  lemma {:induction false} ReadableExtends(parse: string -> Option<int>, amounts: seq<string>, n: nat, x: int)
    requires n <= |amounts| && x in ReadableAmounts(parse, amounts[..n])
    ensures x in ReadableAmounts(parse, amounts)
    decreases |amounts|
  {
    if n == |amounts| {
      assert amounts[..n] == amounts;
    } else {
      assert amounts[..|amounts| - 1][..n] == amounts[..n];
      ReadableExtends(parse, amounts[..|amounts| - 1], n, x);
    }
  }

  /** What the comment on the flag promises: an unreadable amount leaves its own node to the default. */
  function ByPosition(parse: string -> Option<int>, amounts: seq<string>): map<int, int> {
    map i | 0 <= i < |amounts| && parse(amounts[i]).Some? :: parse(amounts[i]).value
  }

  /** No readable amount follows an unreadable one. */
  ghost predicate ReadableFirst(parse: string -> Option<int>, amounts: seq<string>) {
    forall i, j :: 0 <= i < j < |amounts| && parse(amounts[j]).Some? ==> parse(amounts[i]).Some?
  }

  lemma {:induction false} ReadableCount(parse: string -> Option<int>, amounts: seq<string>)
    ensures |ReadableAmounts(parse, amounts)| <= |amounts|
    ensures |ReadableAmounts(parse, amounts)| == |amounts| ==>
      forall i :: 0 <= i < |amounts| ==> parse(amounts[i]).Some?
    decreases |amounts|
  {
    if amounts != [] {
      ReadableCount(parse, amounts[..|amounts| - 1]);
    }
  }

  /**
   Every amount goes to the node of its position if and only if unreadable amounts come last:
   otherwise the amounts after an unreadable one move to earlier nodes.
  */
  lemma {:induction false} StakesByPositionIff(parse: string -> Option<int>, amounts: seq<string>)
    ensures Numbered(ReadableAmounts(parse, amounts)) == ByPosition(parse, amounts) <==> ReadableFirst(parse, amounts)
    decreases |amounts|
  {
    if amounts != [] {
      var n := |amounts| - 1;
      var init := amounts[..n];
      StakesByPositionIff(parse, init);
      if parse(amounts[n]).None? {
        LastUnreadable(parse, amounts);
      } else {
        LastReadable(parse, amounts);
      }
    }
  }

  lemma LastUnreadable(parse: string -> Option<int>, amounts: seq<string>)
    requires amounts != [] && parse(amounts[|amounts| - 1]).None?
    ensures var init := amounts[..|amounts| - 1];
      && ReadableAmounts(parse, amounts) == ReadableAmounts(parse, init)
      && ByPosition(parse, amounts) == ByPosition(parse, init)
      && (ReadableFirst(parse, amounts) <==> ReadableFirst(parse, init))
  {
    var init := amounts[..|amounts| - 1];
    assert forall i :: 0 <= i < |init| ==> init[i] == amounts[i];
  }

  lemma LastReadable(parse: string -> Option<int>, amounts: seq<string>)
    requires amounts != [] && parse(amounts[|amounts| - 1]).Some?
    requires var init := amounts[..|amounts| - 1];
      Numbered(ReadableAmounts(parse, init)) == ByPosition(parse, init) <==> ReadableFirst(parse, init)
    ensures Numbered(ReadableAmounts(parse, amounts)) == ByPosition(parse, amounts) <==> ReadableFirst(parse, amounts)
  {
    var n := |amounts| - 1;
    var init := amounts[..n];
    var xs := ReadableAmounts(parse, init);
    var ys := xs + [parse(amounts[n]).value];
    ReadableCount(parse, init);
    ReadableCount(parse, amounts);
    assert ReadableAmounts(parse, amounts) == ys;
    if Numbered(ys) == ByPosition(parse, amounts) {
      assert n in ByPosition(parse, amounts);
      assert n in Numbered(ys);
      assert |ys| == |amounts|;
    }
    if ReadableFirst(parse, amounts) {
      assert ReadableFirst(parse, init);
      if n > 0 {
        assert n - 1 in ByPosition(parse, init);
        assert n - 1 in Numbered(xs);
      }
      forall i | 0 <= i <= n ensures ys[i] == parse(amounts[i]).value {
        if i < n {
          assert Numbered(xs)[i] == ByPosition(parse, init)[i];
        }
      }
    }
  }

  /** "x,5" stakes 5 for the first node, not the second. */
  lemma UnreadableAmountShifts(parse: string -> Option<int>)
    requires parse("x").None? && parse("5") == Some(5)
    ensures Numbered(ReadableAmounts(parse, ["x", "5"])) == map[0 := 5]
    ensures ByPosition(parse, ["x", "5"]) == map[1 := 5]
  {
    assert ["x", "5"][..1] == ["x"] && ["x"][..0] == [];
    assert ReadableAmounts(parse, ["x"]) == [];
    assert ReadableAmounts(parse, ["x", "5"]) == [5];
  }

  // ----- supply -----

  datatype Balance = Balance(address: Addr, coins: map<string, int>)

  ghost function Total(balances: seq<Balance>, denom: string): int {
    if balances == [] then 0
    else Total(balances[..|balances| - 1], denom) + At(balances[|balances| - 1].coins, denom)
  }

  /** Adds up all coins of all balances. */
  method SupplyOf(balances: seq<Balance>) returns (supply: map<string, int>)
    ensures forall d :: At(supply, d) == Total(balances, d)
  {
    supply := map[];
    for i := 0 to |balances|
      invariant forall d :: At(supply, d) == Total(balances[..i], d)
    {
      assert balances[..i + 1][..i] == balances[..i];
      var coins := balances[i].coins;
      supply := map d | d in supply.Keys + coins.Keys :: At(supply, d) + At(coins, d);
    }
    assert balances[..|balances|] == balances;
  }

  lemma {:induction false} TotalConcat(a: seq<Balance>, b: seq<Balance>, denom: string)
    ensures Total(a + b, denom) == Total(a, denom) + Total(b, denom)
    decreases |b|
  {
    if b == [] {
      assert a + b == a;
    } else {
      assert (a + b)[..|a + b| - 1] == a + b[..|b| - 1];
      TotalConcat(a, b[..|b| - 1], denom);
    }
  }

  /** The balances the builder gives its nodes' accounts: 1000 and 500 million-fold units. */
  function BuilderBalances(accounts: seq<Addr>, bond: string): (r: seq<Balance>)
    ensures |r| == |accounts|
  {
    seq(|accounts|, i requires 0 <= i < |accounts| =>
      Balance(accounts[i], map["testtoken" := 1_000_000_000, bond := 500_000_000]))
  }

  /** n nodes start with n times these amounts and nothing else. */
  lemma {:induction false} BuilderSupply(accounts: seq<Addr>, bond: string, denom: string)
    requires bond != "testtoken"
    ensures Total(BuilderBalances(accounts, bond), denom) ==
            |accounts| * if denom == "testtoken" then 1_000_000_000 else if denom == bond then 500_000_000 else 0
    decreases |accounts|
  {
    if accounts != [] {
      var n := |accounts| - 1;
      assert BuilderBalances(accounts, bond)[..n] == BuilderBalances(accounts[..n], bond);
      BuilderSupply(accounts[..n], bond, denom);
    }
  }

  function Without(b: seq<Balance>, i: nat): seq<Balance>
    requires i < |b|
  {
    b[..i] + b[i + 1..]
  }

  lemma MultisetCut(b: seq<Balance>, i: nat)
    requires i < |b|
    ensures multiset(Without(b, i)) == multiset(b) - multiset{b[i]}
  {
    assert b == b[..i] + ([b[i]] + b[i + 1..]);
  }

  lemma TotalCut(b: seq<Balance>, i: nat, denom: string)
    requires i < |b|
    ensures Total(b, denom) == Total(Without(b, i), denom) + At(b[i].coins, denom)
  {
    var x, rest := [b[i]], b[i + 1..];
    assert b == b[..i] + (x + rest);
    TotalConcat(b[..i], rest, denom);
    TotalConcat(b[..i], x + rest, denom);
    TotalConcat(x, rest, denom);
    assert x[..0] == [];
  }

  /** The supply does not depend on the order in which the balances are sorted. */
  lemma {:induction false} SupplyOrder(a: seq<Balance>, b: seq<Balance>, denom: string)
    requires multiset(a) == multiset(b)
    ensures Total(a, denom) == Total(b, denom)
    decreases |a|
  {
    hide Total, At;
    if a == [] {
      assert |multiset(b)| == 0;
    } else {
      assert a[0] in multiset(b);
      var i :| 0 <= i < |b| && b[i] == a[0];
      MultisetCut(a, 0);
      MultisetCut(b, i);
      SupplyOrder(Without(a, 0), Without(b, i), denom);
      TotalCut(a, 0, denom);
      TotalCut(b, i, denom);
    }
  }
}
