/** `QuickPortChecker`: the bare-host test and the building of the list of discovered web
    services from per-port connection outcomes. */
module PortChecker {
  import opened Text

  /** A `{port: protocol}` dict, as its items in insertion order. */
  type PortTable = seq<(nat, string)>

  predicate PortsUnique(table: PortTable) {
    forall i, j | 0 <= i < j < |table| :: table[i].0 != table[j].0
  }

  /** `COMMON_WEB_PORTS`. */
  function CommonWebPorts(): (table: PortTable)
    ensures PortsUnique(table)
  {
    [(80, "http"), (443, "https"), (8000, "http"), (8080, "http"), (8443, "https"),
     (8888, "http"), (3000, "http"), (5000, "http"), (9000, "http"), (9443, "https")]
  }

  /** The default table has ten ports; exactly 443, 8443 and 9443 are https, all others http. */
  lemma CommonWebPortsFacts()
    ensures |CommonWebPorts()| == 10
    ensures forall i | 0 <= i < 10 :: CommonWebPorts()[i].1 == "https" <==> CommonWebPorts()[i].0 in {443, 8443, 9443}
    ensures forall i | 0 <= i < 10 :: CommonWebPorts()[i].1 in {"http", "https"}
  {
  }

  /** What a socket connection attempt gives back: the `connect_ex` code, or an exception. */
  datatype ConnectOutcome = Code(code: int) | Raised

  /** `check_port`: open exactly when `connect_ex` returned 0; an exception means closed. */
  function CheckPort(o: ConnectOutcome): (open: bool)
    ensures open <==> o == Code(0)
  {
    match o
    case Code(c) => c == 0
    case Raised => false
  }

  /** One entry of the list `find_web_services` returns. */
  datatype Service = Service(url: string, host: string, port: nat, protocol: string, discovered: bool)

  function ServiceUrl(protocol: string, host: string, port: nat): string {
    protocol + "://" + host + ":" + NatToString(port)
  }

  predicate InTable(table: PortTable, port: nat, protocol: string) {
    exists i | 0 <= i < |table| :: table[i] == (port, protocol)
  }

  /** An entry as `find_web_services` builds it for an open port of the table. */
  predicate WellFormed(s: Service, host: string, table: PortTable) {
    InTable(table, s.port, s.protocol) && s.host == host && s.discovered
    && s.url == ServiceUrl(s.protocol, host, s.port)
  }

  predicate Lists(services: seq<Service>, port: nat) {
    exists k | 0 <= k < |services| :: services[k].port == port
  }

  predicate PortsDistinct(services: seq<Service>) {
    forall i, j | 0 <= i < j < |services| :: services[i].port != services[j].port
  }

  /** `order` lists every position of the table exactly once. */
  predicate IsCompletionOrder(order: seq<nat>, n: nat) {
    NoDuplicates(order) && (forall k | 0 <= k < |order| :: order[k] < n) && (forall x | 0 <= x < n :: x in order)
  }

  /** The services found when the port probes of the table positions in `order` complete in that
      order. */
  function Discovered(host: string, table: PortTable, order: seq<nat>, connect: nat -> ConnectOutcome): seq<Service>
    requires forall k | 0 <= k < |order| :: order[k] < |table|
  {
    if order == [] then []
    else Discovered(host, table, order[..|order| - 1], connect) + Check(host, table, order[|order| - 1], connect)
  }

  /** What the probe of table position `i` contributes: the entry for its port when it is open. */
  function Check(host: string, table: PortTable, i: nat, connect: nat -> ConnectOutcome): seq<Service>
    requires i < |table|
  {
    var port := table[i].0;
    if CheckPort(connect(port)) then [Service(ServiceUrl(table[i].1, host, port), host, port, table[i].1, true)] else []
  }

  /** Every discovered entry is built from a table entry as the source builds it. */
  lemma {:induction false} DiscoveredWellFormed(host: string, table: PortTable, order: seq<nat>, connect: nat -> ConnectOutcome)
    requires forall k | 0 <= k < |order| :: order[k] < |table|
    ensures forall s | s in Discovered(host, table, order, connect) :: WellFormed(s, host, table)
  {
    if order != [] {
      var before := Discovered(host, table, order[..|order| - 1], connect);
      var d := Discovered(host, table, order, connect);
      DiscoveredWellFormed(host, table, order[..|order| - 1], connect);
      assert InTable(table, table[order[|order| - 1]].0, table[order[|order| - 1]].1);
      var c := Check(host, table, order[|order| - 1], connect);
      assert d == before + c;

    }
  }

  /** A port is listed exactly when one of the probed positions holds it and its probe succeeded. */
  lemma DiscoveredLists(host: string, table: PortTable, order: seq<nat>, connect: nat -> ConnectOutcome, p: nat)
    requires forall k | 0 <= k < |order| :: order[k] < |table|
    ensures Lists(Discovered(host, table, order, connect), p) <==>
      (exists j | 0 <= j < |order| :: table[order[j]].0 == p) && CheckPort(connect(p))
  {
    if Lists(Discovered(host, table, order, connect), p) {
      DiscoveredListsChecked(host, table, order, connect, p);
    }
    if exists j | 0 <= j < |order| :: table[order[j]].0 == p {
      var j :| 0 <= j < |order| && table[order[j]].0 == p;
      if CheckPort(connect(p)) {
        DiscoveredListsOpen(host, table, order, connect, j);
      }
    }
  }

  /** A listed port is one of the probed positions' and its probe succeeded. */
  lemma {:induction false} DiscoveredListsChecked(host: string, table: PortTable, order: seq<nat>, connect: nat -> ConnectOutcome, p: nat)
    requires forall k | 0 <= k < |order| :: order[k] < |table|
    requires Lists(Discovered(host, table, order, connect), p)
    ensures exists j | 0 <= j < |order| :: table[order[j]].0 == p
    ensures CheckPort(connect(p))
  {
    var init := order[..|order| - 1];
    var before := Discovered(host, table, init, connect);
    var d := Discovered(host, table, order, connect);
    var k :| 0 <= k < |d| && d[k].port == p;
    if k < |before| {
      assert before[k].port == p;
      DiscoveredListsChecked(host, table, init, connect, p);
      var j :| 0 <= j < |init| && table[init[j]].0 == p;
      assert table[order[j]].0 == p;
    } else {
      assert table[order[|order| - 1]].0 == p;
    }
  }

  /** A checked position whose check succeeded has its port listed. */
  lemma {:induction false} DiscoveredListsOpen(host: string, table: PortTable, order: seq<nat>, connect: nat -> ConnectOutcome, j: nat)
    requires forall k | 0 <= k < |order| :: order[k] < |table|
    requires j < |order| && CheckPort(connect(table[order[j]].0))
    ensures Lists(Discovered(host, table, order, connect), table[order[j]].0)
  {
    var init := order[..|order| - 1];
    var before := Discovered(host, table, init, connect);
    var d := Discovered(host, table, order, connect);
    var p := table[order[j]].0;
    if j < |init| {
      assert init[j] == order[j];
      DiscoveredListsOpen(host, table, init, connect, j);
      var k :| 0 <= k < |before| && before[k].port == p;
      assert d[k] == before[k];
    } else {
      assert d[|d| - 1].port == p;
    }
  }


  /** With distinct ports in the table and each position checked once, no port is listed twice. */
  lemma {:induction false} DiscoveredUnique(host: string, table: PortTable, order: seq<nat>, connect: nat -> ConnectOutcome)
    requires forall k | 0 <= k < |order| :: order[k] < |table|
    requires PortsUnique(table) && NoDuplicates(order)
    ensures PortsDistinct(Discovered(host, table, order, connect))
  {
    if order != [] {
      var init := order[..|order| - 1];
      var port := table[order[|order| - 1]].0;
      DiscoveredUnique(host, table, init, connect);
      var before := Discovered(host, table, init, connect);
      var d := Discovered(host, table, order, connect);
      if |d| > |before| {
        forall k | 0 <= k < |before| ensures before[k].port != port {
          DiscoveredLists(host, table, init, connect, before[k].port);
          assert Lists(before, before[k].port);
          var j :| 0 <= j < |init| && table[init[j]].0 == before[k].port;
          assert init[j] == order[j] && order[j] != order[|order| - 1];
        }
      }
      var c := Check(host, table, order[|order| - 1], connect);
      assert d == before + c;
      forall i, j | 0 <= i < j < |d| ensures d[i].port != d[j].port {
        assert d[i] == before[i];
        if j < |before| { assert d[j] == before[j]; } else { assert d[j] == c[0]; }
      }
    }
  }

  /** `find_web_services(host, ports)`: `order` is the order in which the port probes complete (a
      permutation of the table's positions, chosen by the thread pool) and `connect` the outcome
      of the connection attempt on each port. */
  method FindWebServices(host: string, ports: Option<PortTable>, order: seq<nat>,
                         connect: nat -> ConnectOutcome)
    returns (services: seq<Service>)
    requires PortsUnique(ports.GetOr(CommonWebPorts()))
    requires IsCompletionOrder(order, |ports.GetOr(CommonWebPorts())|)
    ensures services == Discovered(host, ports.GetOr(CommonWebPorts()), order, connect)
    ensures forall s | s in services :: WellFormed(s, host, ports.GetOr(CommonWebPorts()))
    ensures forall i | 0 <= i < |ports.GetOr(CommonWebPorts())| ::
      Lists(services, ports.GetOr(CommonWebPorts())[i].0) <==> CheckPort(connect(ports.GetOr(CommonWebPorts())[i].0))
    ensures forall p :: Lists(services, p) ==> exists i | 0 <= i < |ports.GetOr(CommonWebPorts())| ::
      ports.GetOr(CommonWebPorts())[i].0 == p
    ensures PortsDistinct(services)
  {
    var table := ports.GetOr(CommonWebPorts());
    services := [];
    var i := 0;
    while i < |order|
      invariant 0 <= i <= |order|
      invariant services == Discovered(host, table, order[..i], connect)
    {
      var port, protocol := table[order[i]].0, table[order[i]].1;
      DiscoveredStep(host, table, order, connect, i);
      if CheckPort(connect(port)) {
        services := services + [Service(ServiceUrl(protocol, host, port), host, port, protocol, true)];
      }
      i := i + 1;
    }
    assert order[..i] == order;
    DiscoveredFacts(host, table, order, connect);
  }

  lemma DiscoveredStep(host: string, table: PortTable, order: seq<nat>, connect: nat -> ConnectOutcome, i: nat)
    requires i < |order| && forall k | 0 <= k < |order| :: order[k] < |table|
    ensures Discovered(host, table, order[..i + 1], connect) == Discovered(host, table, order[..i], connect) + Check(host, table, order[i], connect)
  {
    assert order[..i + 1][..i] == order[..i];
  }

  /** With every position checked once, the services are well formed, list exactly the open ports
      of the table, and list each port once. */
  lemma DiscoveredFacts(host: string, table: PortTable, order: seq<nat>, connect: nat -> ConnectOutcome)
    requires PortsUnique(table) && IsCompletionOrder(order, |table|)
    ensures var services := Discovered(host, table, order, connect);
      (forall s | s in services :: WellFormed(s, host, table)) &&
      (forall i | 0 <= i < |table| :: Lists(services, table[i].0) <==> CheckPort(connect(table[i].0))) &&
      (forall p :: Lists(services, p) ==> exists i | 0 <= i < |table| :: table[i].0 == p) &&
      PortsDistinct(services)
  {
    var services := Discovered(host, table, order, connect);
    DiscoveredWellFormed(host, table, order, connect);
    DiscoveredUnique(host, table, order, connect);
    forall p ensures Lists(services, p) <==> (exists j | 0 <= j < |order| :: table[order[j]].0 == p) && CheckPort(connect(p)) {
      DiscoveredLists(host, table, order, connect, p);
    }
    forall x | 0 <= x < |table|
      ensures Lists(services, table[x].0) <==> CheckPort(connect(table[x].0))
    {
      assert x in order;
      var j :| 0 <= j < |order| && order[j] == x;
    }
  }


  /** `is_bare_ip_or_host`: false for a URL with an `http://` or `https://` scheme and for a
      `host:port` whose single colon is followed by an integer; true otherwise. */
  predicate IsBareIpOrHost(target: string) {
    if StartsWith(target, "http://") || StartsWith(target, "https://") then false
    else if ':' in target then
      var parts := Split(target, ':');
      !(|parts| == 2 && ParseInt(parts[1]).Some?)
    else true
  }

  lemma {:induction false} SplitWithoutSeparator(s: string, c: char)
    requires c !in s
    ensures Split(s, c) == [s]
  {
    CountNone(s, c);
  }

  lemma {:induction false} CountNone(s: string, c: char)
    requires c !in s
    ensures CountChar(s, c) == 0
  {
    if s != [] { CountNone(s[1..], c); }
  }

  lemma {:induction false} CountSome(s: string, c: char)
    requires c in s
    ensures CountChar(s, c) > 0
  {
    if s[0] != c { CountSome(s[1..], c); }
  }

  /** With exactly one colon, `split(':')` gives the text before and the text after it. */
  lemma {:induction false} SplitOneSeparator(s: string, c: char)
    requires CountChar(s, c) == 1
    ensures Split(s, c) == [BeforeFirst(s, c), AfterFirst(s, c)]
  {
    var i := IndexOf(s, c);
    CountAtFirst(s, c);
    if i == |s| {
      assert false;
    } else {
      var rest := s[i + 1..];
      if c in rest { CountSome(rest, c); }
      SplitWithoutSeparator(rest, c);
    }
  }

  /** The whole rule, stated without `split`: a target is bare unless it has a URL scheme or has
      exactly one colon followed by something `int()` accepts. */
  lemma {:induction false} BareCharacterized(target: string)
    ensures IsBareIpOrHost(target) <==>
      !(StartsWith(target, "http://") || StartsWith(target, "https://"))
      && !(CountChar(target, ':') == 1 && ParseInt(AfterFirst(target, ':')).Some?)
  {
    if ':' in target {
      CountSome(target, ':');
      if CountChar(target, ':') == 1 { SplitOneSeparator(target, ':'); }
    } else {
      CountNone(target, ':');
    }
  }

  /** Anything with an `http://` or `https://` scheme is not bare. */
  lemma SchemeNotBare(target: string)
    requires StartsWith(target, "http://") || StartsWith(target, "https://")
    ensures !IsBareIpOrHost(target)
  {
  }

  /** `host:port` with a colon-free host and an integer port (`10.0.0.1:8080`) is not bare. */
  lemma {:induction false} HostPortNotBare(host: string, port: string)
    requires !StartsWith(host + ":" + port, "http://") && !StartsWith(host + ":" + port, "https://")
    requires ':' !in host && ':' !in port
    requires ParseInt(port).Some?
    ensures !IsBareIpOrHost(host + ":" + port)
  {
    var t := host + ":" + port;
    assert t[|host|] == ':';
    assert forall k | 0 <= k < |host| :: t[k] == host[k];
    assert IndexOf(t, ':') == |host|;
    assert t[|host| + 1..] == port;
    assert ':' in t;
    CountAtFirst(t, ':');
    CountNone(port, ':');
    BareCharacterized(t);
  }

  /** A scheme-less target without a colon (`example.com`, `10.0.0.1`) is bare. */
  lemma NoColonBare(target: string)
    requires !StartsWith(target, "http://") && !StartsWith(target, "https://")
    requires ':' !in target
    ensures IsBareIpOrHost(target)
  {
  }

  /** Two or more colons (an IPv6 address) make a scheme-less target bare whatever follows. */
  lemma {:induction false} ManyColonsBare(target: string)
    requires !StartsWith(target, "http://") && !StartsWith(target, "https://")
    requires CountChar(target, ':') >= 2
    ensures IsBareIpOrHost(target)
  {
    BareCharacterized(target);
  }

  /** A single colon followed by something `int()` rejects (`host:`, `host:abc`) leaves the
      target bare. */
  lemma {:induction false} BadPortBare(target: string)
    requires !StartsWith(target, "http://") && !StartsWith(target, "https://")
    requires CountChar(target, ':') == 1
    requires ParseInt(AfterFirst(target, ':')).None?
    ensures IsBareIpOrHost(target)
  {
    BareCharacterized(target);
  }

  /** In particular `host:` with nothing after the colon is bare. */
  lemma {:induction false} EmptyPortBare(host: string)
    requires !StartsWith(host + ":", "http://") && !StartsWith(host + ":", "https://")
    requires ':' !in host
    ensures IsBareIpOrHost(host + ":")
  {
    var t := host + ":";
    assert t[|host|] == ':';
    assert forall k | 0 <= k < |host| :: t[k] == host[k];
    assert IndexOf(t, ':') == |host|;
    assert AfterFirst(t, ':') == "";
    CountAtFirst(t, ':');
    BareCharacterized(t);
  }
}
