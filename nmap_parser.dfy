/** `NmapParser`: the web-service decision table and the walk over the hosts and ports of a
    scan, given as the records the XML parser yields. */
module NmapParser {
  import opened Text
  import opened Records

  /** A `<service>` element; absent attributes read as `''`. */
  datatype NmapService = NmapService(name: string, product: string, version: string, tunnel: string)

  /** A `<port>` element: its `portid` and `protocol` attributes, the `state` attribute of its
      `<state>` child (`None` without one) and its `<service>` child. */
  datatype NmapPort = NmapPort(portid: string, protocol: string, state: Option<string>, service: Option<NmapService>)

  /** A `<host>` element: the `addr` of its first ipv4 and first ipv6 `<address>`, the `name` of
      its first `<hostname>`, and its ports in document order. */
  datatype NmapHost = NmapHost(ipv4: Option<string>, ipv6: Option<string>, hostname: Option<string>, ports: seq<NmapPort>)

  /** `_is_web_service(port, service_name, tunnel)`, with the configured `http_ports` and
      `https_ports`: whether the service is a web service, and its scheme. */
  function IsWebService(port: int, serviceName: string, tunnel: string, httpPorts: seq<int>, httpsPorts: seq<int>): (bool, string) {
    if tunnel == "ssl" then (true, "https")
    else if serviceName in ["http", "http-proxy", "http-alt"] then
      if port in httpsPorts then (true, "https") else (true, "http")
    else if serviceName in ["https", "https-alt", "ssl/http"] then (true, "https")
    else if port in httpPorts then (true, "http")
    else if port in httpsPorts then (true, "https")
    else (false, "http")
  }

  /** An SSL tunnel always means https. */
  lemma SslTunnelIsHttps(port: int, serviceName: string, httpPorts: seq<int>, httpsPorts: seq<int>)
    ensures IsWebService(port, serviceName, "ssl", httpPorts, httpsPorts) == (true, "https")
  {
  }

  /** Without a tunnel, the plain HTTP service names are web services, https exactly on an https
      port. */
  lemma HttpNames(port: int, serviceName: string, tunnel: string, httpPorts: seq<int>, httpsPorts: seq<int>)
    requires tunnel != "ssl" && serviceName in ["http", "http-proxy", "http-alt"]
    ensures IsWebService(port, serviceName, tunnel, httpPorts, httpsPorts).0
    ensures IsWebService(port, serviceName, tunnel, httpPorts, httpsPorts).1 == "https" <==> port in httpsPorts
  {
  }

  /** The TLS service names are always https. */
  lemma HttpsNames(port: int, serviceName: string, tunnel: string, httpPorts: seq<int>, httpsPorts: seq<int>)
    requires serviceName in ["https", "https-alt", "ssl/http"]
    ensures IsWebService(port, serviceName, tunnel, httpPorts, httpsPorts) == (true, "https")
  {
  }

  /** Any other service is classified by its port alone: an http port wins over an https port,
      and a port in neither list is not a web service. */
  lemma OtherNames(port: int, serviceName: string, tunnel: string, httpPorts: seq<int>, httpsPorts: seq<int>)
    requires tunnel != "ssl"
    requires serviceName !in ["http", "http-proxy", "http-alt", "https", "https-alt", "ssl/http"]
    ensures port in httpPorts ==> IsWebService(port, serviceName, tunnel, httpPorts, httpsPorts) == (true, "http")
    ensures port !in httpPorts && port in httpsPorts ==> IsWebService(port, serviceName, tunnel, httpPorts, httpsPorts) == (true, "https")
    ensures port !in httpPorts && port !in httpsPorts ==> IsWebService(port, serviceName, tunnel, httpPorts, httpsPorts) == (false, "http")
  {
  }

  /** The scheme is always `http` or `https`. */
  lemma SchemeIsWeb(port: int, serviceName: string, tunnel: string, httpPorts: seq<int>, httpsPorts: seq<int>)
    ensures IsWebService(port, serviceName, tunnel, httpPorts, httpsPorts).1 in {"http", "https"}
  {
  }

  /** The address a host is known by: its ipv4 address, else its ipv6 address. */
  function Address(h: NmapHost): Option<string> {
    if h.ipv4.Some? then h.ipv4 else h.ipv6
  }

  /** What one port contributes: nothing, a target, or the `ValueError` of a `portid` that
      `int()` rejects, which ends the whole parse with `[]`. */
  datatype PortResult = NoTarget | Web(target: Target) | BadPort

  function PortTarget(hostname: string, ip: string, p: NmapPort, sourceFile: string, httpPorts: seq<int>, httpsPorts: seq<int>): PortResult {
    if p.protocol != "tcp" || p.state != Some("open") || p.service.None? then NoTarget
    else
      var s := p.service.value;
      match ParseInt(p.portid)
      case None => BadPort
      case Some(n) =>
        var (isHttp, scheme) := IsWebService(n, s.name, s.tunnel, httpPorts, httpsPorts);
        if !isHttp then NoTarget
        else Web(Target(scheme + "://" + hostname + ":" + p.portid, "nmap_scan", sourceFile, hostname, scheme, None,
                        map["ip_address" := ip, "port" := p.portid, "service_name" := s.name,
                            "service_product" := s.product, "service_version" := s.version]))
  }

  /** The targets of the ports `ps` of one host, or `None` at a bad `portid`. */
  function PortsTargets(hostname: string, ip: string, ps: seq<NmapPort>, sourceFile: string, httpPorts: seq<int>, httpsPorts: seq<int>): Option<seq<Target>> {
    if ps == [] then Some([])
    else
      match PortsTargets(hostname, ip, ps[..|ps| - 1], sourceFile, httpPorts, httpsPorts)
      case None => None
      case Some(ts) =>
        match PortTarget(hostname, ip, ps[|ps| - 1], sourceFile, httpPorts, httpsPorts)
        case NoTarget => Some(ts)
        case Web(t) => Some(ts + [t])
        case BadPort => None
  }

  /** A host's targets: none without an address; otherwise its ports' targets under its
      hostname, or under its address when it has no hostname. */
  function HostTargets(h: NmapHost, sourceFile: string, httpPorts: seq<int>, httpsPorts: seq<int>): Option<seq<Target>> {
    match Address(h)
    case None => Some([])
    case Some(ip) => PortsTargets(h.hostname.GetOr(ip), ip, h.ports, sourceFile, httpPorts, httpsPorts)
  }

  function HostsTargets(hosts: seq<NmapHost>, sourceFile: string, httpPorts: seq<int>, httpsPorts: seq<int>): Option<seq<Target>> {
    if hosts == [] then Some([])
    else
      match HostsTargets(hosts[..|hosts| - 1], sourceFile, httpPorts, httpsPorts)
      case None => None
      case Some(ts) =>
        match HostTargets(hosts[|hosts| - 1], sourceFile, httpPorts, httpsPorts)
        case None => None
        case Some(us) => Some(ts + us)
  }

  /** `parse(file_path)` over the hosts of the parsed document. */
  method Parse(hosts: seq<NmapHost>, sourceFile: string, httpPorts: seq<int>, httpsPorts: seq<int>) returns (targets: seq<Target>)
    ensures targets == HostsTargets(hosts, sourceFile, httpPorts, httpsPorts).GetOr([])
  {
    targets := [];
    var i := 0;
    while i < |hosts|
      invariant 0 <= i <= |hosts|
      invariant HostsTargets(hosts[..i], sourceFile, httpPorts, httpsPorts) == Some(targets)
    {
      assert hosts[..i + 1][..i] == hosts[..i];
      assert hosts[..i + 1][i] == hosts[i];
      var address := Address(hosts[i]);
      if address.Some? {
        var found := ScanPorts(hosts[i].hostname.GetOr(address.value), address.value, hosts[i].ports, sourceFile, httpPorts, httpsPorts);
        if found.None? {
          HostsAbortSticks(hosts, i + 1, sourceFile, httpPorts, httpsPorts);
          return [];
        }
        assert HostTargets(hosts[i], sourceFile, httpPorts, httpsPorts) == found;
        targets := targets + found.value;
      } else {
        assert HostTargets(hosts[i], sourceFile, httpPorts, httpsPorts) == Some([]);
        assert targets + [] == targets;
      }
      i := i + 1;
    }
    assert hosts[..i] == hosts;
  }

  /** The inner loop of `parse` over one host's ports; `None` when `int(portid)` raises. */
  method ScanPorts(hostname: string, ip: string, ports: seq<NmapPort>, sourceFile: string, httpPorts: seq<int>, httpsPorts: seq<int>)
    returns (found: Option<seq<Target>>)
    ensures found == PortsTargets(hostname, ip, ports, sourceFile, httpPorts, httpsPorts)
  {
    var ts: seq<Target> := [];
    var j := 0;
    while j < |ports|
      invariant 0 <= j <= |ports|
      invariant PortsTargets(hostname, ip, ports[..j], sourceFile, httpPorts, httpsPorts) == Some(ts)
    {
      assert ports[..j + 1][..j] == ports[..j];
      assert ports[..j + 1][j] == ports[j];
      match PortTarget(hostname, ip, ports[j], sourceFile, httpPorts, httpsPorts) {
        case NoTarget =>
        case Web(t) => ts := ts + [t];
        case BadPort =>
          PortsAbortSticks(hostname, ip, ports, j + 1, sourceFile, httpPorts, httpsPorts);
          return None;
      }
      j := j + 1;
    }
    assert ports[..j] == ports;
    found := Some(ts);
  }

  lemma {:induction false} PortsAbortSticks(hostname: string, ip: string, ps: seq<NmapPort>, n: nat, sourceFile: string, httpPorts: seq<int>, httpsPorts: seq<int>)
    requires n <= |ps| && PortsTargets(hostname, ip, ps[..n], sourceFile, httpPorts, httpsPorts).None?
    ensures PortsTargets(hostname, ip, ps, sourceFile, httpPorts, httpsPorts).None?
    decreases |ps| - n
  {
    if n < |ps| {
      assert ps[..n + 1][..n] == ps[..n];
      PortsAbortSticks(hostname, ip, ps, n + 1, sourceFile, httpPorts, httpsPorts);
    } else {
      assert ps[..n] == ps;
    }
  }

  lemma {:induction false} HostsAbortSticks(hosts: seq<NmapHost>, n: nat, sourceFile: string, httpPorts: seq<int>, httpsPorts: seq<int>)
    requires n <= |hosts| && HostsTargets(hosts[..n], sourceFile, httpPorts, httpsPorts).None?
    ensures HostsTargets(hosts, sourceFile, httpPorts, httpsPorts).None?
    decreases |hosts| - n
  {
    if n < |hosts| {
      assert hosts[..n + 1][..n] == hosts[..n];
      HostsAbortSticks(hosts, n + 1, sourceFile, httpPorts, httpsPorts);
    } else {
      assert hosts[..n] == hosts;
    }
  }

  /** A port yields a target only when it is an open tcp port with a service that the decision
      table calls a web service; the target is `scheme://hostname:portid` with that scheme. */
  lemma PortTargetShape(hostname: string, ip: string, p: NmapPort, sourceFile: string, httpPorts: seq<int>, httpsPorts: seq<int>)
    requires PortTarget(hostname, ip, p, sourceFile, httpPorts, httpsPorts).Web?
    ensures var t := PortTarget(hostname, ip, p, sourceFile, httpPorts, httpsPorts).target;
      p.protocol == "tcp" && p.state == Some("open") && p.service.Some? && ParseInt(p.portid).Some?
      && IsWebService(ParseInt(p.portid).value, p.service.value.name, p.service.value.tunnel, httpPorts, httpsPorts) == (true, t.scheme)
      && t.url == t.scheme + "://" + hostname + ":" + p.portid
      && t.domain == hostname && t.source == "nmap_scan" && t.extras["ip_address"] == ip && t.extras["port"] == p.portid
  {
  }

  /** `t` is the target of one port of one addressed host of `hosts`, under that host's
      hostname or, lacking one, its address. */
  predicate FromSomePort(t: Target, hosts: seq<NmapHost>, sourceFile: string, httpPorts: seq<int>, httpsPorts: seq<int>) {
    exists i, j | 0 <= i < |hosts| && Address(hosts[i]).Some? && 0 <= j < |hosts[i].ports| ::
      PortTarget(hosts[i].hostname.GetOr(Address(hosts[i]).value), Address(hosts[i]).value, hosts[i].ports[j],
                 sourceFile, httpPorts, httpsPorts) == Web(t)
  }

  lemma {:induction false} PortsTargetsFrom(hostname: string, ip: string, ps: seq<NmapPort>, sourceFile: string, httpPorts: seq<int>, httpsPorts: seq<int>)
    requires PortsTargets(hostname, ip, ps, sourceFile, httpPorts, httpsPorts).Some?
    ensures forall t | t in PortsTargets(hostname, ip, ps, sourceFile, httpPorts, httpsPorts).value ::
      exists j | 0 <= j < |ps| :: PortTarget(hostname, ip, ps[j], sourceFile, httpPorts, httpsPorts) == Web(t)
  {
    if ps != [] {
      var init := ps[..|ps| - 1];
      PortsTargetsFrom(hostname, ip, init, sourceFile, httpPorts, httpsPorts);
      forall t | t in PortsTargets(hostname, ip, init, sourceFile, httpPorts, httpsPorts).value
        ensures exists j | 0 <= j < |ps| :: PortTarget(hostname, ip, ps[j], sourceFile, httpPorts, httpsPorts) == Web(t)
      {
        var j :| 0 <= j < |init| && PortTarget(hostname, ip, init[j], sourceFile, httpPorts, httpsPorts) == Web(t);
        assert ps[j] == init[j];
      }
    }
  }

  /** Every target of a completed parse comes from one port of an addressed host. */
  lemma {:induction false} HostsTargetsFrom(hosts: seq<NmapHost>, sourceFile: string, httpPorts: seq<int>, httpsPorts: seq<int>)
    requires HostsTargets(hosts, sourceFile, httpPorts, httpsPorts).Some?
    ensures forall t | t in HostsTargets(hosts, sourceFile, httpPorts, httpsPorts).value ::
      FromSomePort(t, hosts, sourceFile, httpPorts, httpsPorts)
  {
    if hosts != [] {
      var init := hosts[..|hosts| - 1];
      var h := hosts[|hosts| - 1];
      HostsTargetsFrom(init, sourceFile, httpPorts, httpsPorts);
      forall t | t in HostsTargets(init, sourceFile, httpPorts, httpsPorts).value
        ensures FromSomePort(t, hosts, sourceFile, httpPorts, httpsPorts)
      {
        assert FromSomePort(t, init, sourceFile, httpPorts, httpsPorts);
        var i, j :| 0 <= i < |init| && Address(init[i]).Some? && 0 <= j < |init[i].ports| &&
          PortTarget(init[i].hostname.GetOr(Address(init[i]).value), Address(init[i]).value, init[i].ports[j],
                     sourceFile, httpPorts, httpsPorts) == Web(t);
        assert hosts[i] == init[i];
      }
      if Address(h).Some? {
        var ip := Address(h).value;
        PortsTargetsFrom(h.hostname.GetOr(ip), ip, h.ports, sourceFile, httpPorts, httpsPorts);
        forall t | t in HostTargets(h, sourceFile, httpPorts, httpsPorts).value
          ensures FromSomePort(t, hosts, sourceFile, httpPorts, httpsPorts)
        {
          var j :| 0 <= j < |h.ports| && PortTarget(h.hostname.GetOr(ip), ip, h.ports[j], sourceFile, httpPorts, httpsPorts) == Web(t);
          assert hosts[|hosts| - 1] == h;
        }
      }
    }
  }

  /** Every web port of the host contributes its target to a completed list. */
  lemma {:induction false} PortsTargetsComplete(hostname: string, ip: string, ps: seq<NmapPort>, sourceFile: string, httpPorts: seq<int>, httpsPorts: seq<int>)
    requires PortsTargets(hostname, ip, ps, sourceFile, httpPorts, httpsPorts).Some?
    ensures forall j | 0 <= j < |ps| && PortTarget(hostname, ip, ps[j], sourceFile, httpPorts, httpsPorts).Web? ::
      PortTarget(hostname, ip, ps[j], sourceFile, httpPorts, httpsPorts).target in PortsTargets(hostname, ip, ps, sourceFile, httpPorts, httpsPorts).value
  {
    if ps != [] {
      var init := ps[..|ps| - 1];
      PortsTargetsComplete(hostname, ip, init, sourceFile, httpPorts, httpsPorts);
      forall j | 0 <= j < |init| && PortTarget(hostname, ip, ps[j], sourceFile, httpPorts, httpsPorts).Web?
        ensures PortTarget(hostname, ip, ps[j], sourceFile, httpPorts, httpsPorts).target in PortsTargets(hostname, ip, ps, sourceFile, httpPorts, httpsPorts).value
      {
        assert ps[j] == init[j];
      }
    }
  }

  /** Every web port of every addressed host contributes its target to a completed parse. */
  lemma {:induction false} HostsTargetsComplete(hosts: seq<NmapHost>, sourceFile: string, httpPorts: seq<int>, httpsPorts: seq<int>)
    requires HostsTargets(hosts, sourceFile, httpPorts, httpsPorts).Some?
    ensures forall i, j | 0 <= i < |hosts| && Address(hosts[i]).Some? && 0 <= j < |hosts[i].ports| &&
      PortTarget(hosts[i].hostname.GetOr(Address(hosts[i]).value), Address(hosts[i]).value, hosts[i].ports[j], sourceFile, httpPorts, httpsPorts).Web? ::
      PortTarget(hosts[i].hostname.GetOr(Address(hosts[i]).value), Address(hosts[i]).value, hosts[i].ports[j], sourceFile, httpPorts, httpsPorts).target
        in HostsTargets(hosts, sourceFile, httpPorts, httpsPorts).value
  {
    if hosts != [] {
      var init := hosts[..|hosts| - 1];
      var h := hosts[|hosts| - 1];
      HostsTargetsComplete(init, sourceFile, httpPorts, httpsPorts);
      forall i | 0 <= i < |init| ensures hosts[i] == init[i] { }
      if Address(h).Some? {
        var ip := Address(h).value;
        PortsTargetsComplete(h.hostname.GetOr(ip), ip, h.ports, sourceFile, httpPorts, httpsPorts);
      }
    }
  }

  /** The ports of `a + b` give the targets of `a`'s ports followed by those of `b`'s, and no
      list when either part has a bad `portid`. */
  lemma {:induction false} PortsTargetsAppend(hostname: string, ip: string, a: seq<NmapPort>, b: seq<NmapPort>, sourceFile: string, httpPorts: seq<int>, httpsPorts: seq<int>)
    ensures var x, y := PortsTargets(hostname, ip, a, sourceFile, httpPorts, httpsPorts), PortsTargets(hostname, ip, b, sourceFile, httpPorts, httpsPorts);
      PortsTargets(hostname, ip, a + b, sourceFile, httpPorts, httpsPorts) == if x.Some? && y.Some? then Some(x.value + y.value) else None
  {
    if b == [] {
      assert a + b == a;
      var x := PortsTargets(hostname, ip, a, sourceFile, httpPorts, httpsPorts);
      if x.Some? {
        assert x.value + [] == x.value;
      }
    } else {
      PortsTargetsAppend(hostname, ip, a, b[..|b| - 1], sourceFile, httpPorts, httpsPorts);
      PortsAppendStep(hostname, ip, a, b, sourceFile, httpPorts, httpsPorts);
    }
  }

  /** The step of `PortsTargetsAppend` from `b` without its last port to `b`. */
  lemma PortsAppendStep(hostname: string, ip: string, a: seq<NmapPort>, b: seq<NmapPort>, sourceFile: string, httpPorts: seq<int>, httpsPorts: seq<int>)
    requires b != []
    requires var x, y := PortsTargets(hostname, ip, a, sourceFile, httpPorts, httpsPorts), PortsTargets(hostname, ip, b[..|b| - 1], sourceFile, httpPorts, httpsPorts);
      PortsTargets(hostname, ip, a + b[..|b| - 1], sourceFile, httpPorts, httpsPorts) == if x.Some? && y.Some? then Some(x.value + y.value) else None
    ensures var x, y := PortsTargets(hostname, ip, a, sourceFile, httpPorts, httpsPorts), PortsTargets(hostname, ip, b, sourceFile, httpPorts, httpsPorts);
      PortsTargets(hostname, ip, a + b, sourceFile, httpPorts, httpsPorts) == if x.Some? && y.Some? then Some(x.value + y.value) else None
  {
    assert (a + b)[..|a + b| - 1] == a + b[..|b| - 1];
    assert (a + b)[|a + b| - 1] == b[|b| - 1];
    var x := PortsTargets(hostname, ip, a, sourceFile, httpPorts, httpsPorts);
    var y := PortsTargets(hostname, ip, b[..|b| - 1], sourceFile, httpPorts, httpsPorts);
    if x.Some? && y.Some? {
      match PortTarget(hostname, ip, b[|b| - 1], sourceFile, httpPorts, httpsPorts)
      case NoTarget =>
      case BadPort =>
      case Web(t) => ConcatAssoc(x.value, y.value, [t]);
    }
  }

  /** The hosts `a + b` give the targets of `a` followed by those of `b`, and no list when
      either part aborts. */
  lemma {:induction false} HostsTargetsAppend(a: seq<NmapHost>, b: seq<NmapHost>, sourceFile: string, httpPorts: seq<int>, httpsPorts: seq<int>)
    ensures var x, y := HostsTargets(a, sourceFile, httpPorts, httpsPorts), HostsTargets(b, sourceFile, httpPorts, httpsPorts);
      HostsTargets(a + b, sourceFile, httpPorts, httpsPorts) == if x.Some? && y.Some? then Some(x.value + y.value) else None
  {
    var x := HostsTargets(a, sourceFile, httpPorts, httpsPorts);
    if b == [] {
      assert a + b == a;
      if x.Some? {
        assert x.value + [] == x.value;
      }
    } else {
      HostsTargetsAppend(a, b[..|b| - 1], sourceFile, httpPorts, httpsPorts);
      HostsAppendStep(a, b, sourceFile, httpPorts, httpsPorts);
    }
  }

  /** The step of `HostsTargetsAppend` from `b` without its last host to `b`. */
  lemma HostsAppendStep(a: seq<NmapHost>, b: seq<NmapHost>, sourceFile: string, httpPorts: seq<int>, httpsPorts: seq<int>)
    requires b != []
    requires var x, y := HostsTargets(a, sourceFile, httpPorts, httpsPorts), HostsTargets(b[..|b| - 1], sourceFile, httpPorts, httpsPorts);
      HostsTargets(a + b[..|b| - 1], sourceFile, httpPorts, httpsPorts) == if x.Some? && y.Some? then Some(x.value + y.value) else None
    ensures var x, y := HostsTargets(a, sourceFile, httpPorts, httpsPorts), HostsTargets(b, sourceFile, httpPorts, httpsPorts);
      HostsTargets(a + b, sourceFile, httpPorts, httpsPorts) == if x.Some? && y.Some? then Some(x.value + y.value) else None
  {
    HostsAppendLast(a, b, sourceFile, httpPorts, httpsPorts);
    var x := HostsTargets(a, sourceFile, httpPorts, httpsPorts);
    var y := HostsTargets(b[..|b| - 1], sourceFile, httpPorts, httpsPorts);
    var u := HostTargets(b[|b| - 1], sourceFile, httpPorts, httpsPorts);
    assert HostsTargets(b, sourceFile, httpPorts, httpsPorts) == if y.Some? && u.Some? then Some(y.value + u.value) else None;
    if x.Some? && y.Some? && u.Some? {
      ConcatAssoc(x.value, y.value, u.value);
    }
  }

  lemma ConcatAssoc(x: seq<Target>, y: seq<Target>, u: seq<Target>)
    ensures (x + y) + u == x + (y + u)
  {
  }

  /** One unfolding of `HostsTargets(a + b)` at the last host of `b`. */
  lemma HostsAppendLast(a: seq<NmapHost>, b: seq<NmapHost>, sourceFile: string, httpPorts: seq<int>, httpsPorts: seq<int>)
    requires b != []
    ensures var y, u := HostsTargets(a + b[..|b| - 1], sourceFile, httpPorts, httpsPorts), HostTargets(b[|b| - 1], sourceFile, httpPorts, httpsPorts);
      HostsTargets(a + b, sourceFile, httpPorts, httpsPorts) == if y.Some? && u.Some? then Some(y.value + u.value) else None
  {
    assert (a + b)[..|a + b| - 1] == a + b[..|b| - 1];
    assert (a + b)[|a + b| - 1] == b[|b| - 1];
  }

  /** Port order: in a host's completed list, the targets of its first `n` ports come before
      those of the rest. */
  lemma PortsOrdered(hostname: string, ip: string, ps: seq<NmapPort>, n: nat, sourceFile: string, httpPorts: seq<int>, httpsPorts: seq<int>)
    requires n <= |ps| && PortsTargets(hostname, ip, ps, sourceFile, httpPorts, httpsPorts).Some?
    ensures PortsTargets(hostname, ip, ps[..n], sourceFile, httpPorts, httpsPorts).Some?
    ensures PortsTargets(hostname, ip, ps[n..], sourceFile, httpPorts, httpsPorts).Some?
    ensures PortsTargets(hostname, ip, ps, sourceFile, httpPorts, httpsPorts).value ==
      PortsTargets(hostname, ip, ps[..n], sourceFile, httpPorts, httpsPorts).value + PortsTargets(hostname, ip, ps[n..], sourceFile, httpPorts, httpsPorts).value
  {
    assert ps[..n] + ps[n..] == ps;
    PortsTargetsAppend(hostname, ip, ps[..n], ps[n..], sourceFile, httpPorts, httpsPorts);
  }

  /** Host order: a completed parse lists the targets of the hosts before `hosts[n]`, then the
      targets of `hosts[n]`'s ports, then those of the hosts after it. */
  lemma HostsOrdered(hosts: seq<NmapHost>, n: nat, sourceFile: string, httpPorts: seq<int>, httpsPorts: seq<int>)
    requires n < |hosts| && HostsTargets(hosts, sourceFile, httpPorts, httpsPorts).Some?
    ensures HostsTargets(hosts[..n], sourceFile, httpPorts, httpsPorts).Some?
    ensures HostTargets(hosts[n], sourceFile, httpPorts, httpsPorts).Some?
    ensures HostsTargets(hosts[n + 1..], sourceFile, httpPorts, httpsPorts).Some?
    ensures HostsTargets(hosts, sourceFile, httpPorts, httpsPorts).value ==
      HostsTargets(hosts[..n], sourceFile, httpPorts, httpsPorts).value + HostTargets(hosts[n], sourceFile, httpPorts, httpsPorts).value +
      HostsTargets(hosts[n + 1..], sourceFile, httpPorts, httpsPorts).value
  {
    var one := [hosts[n]];
    assert one[..0] == [];
    var u := HostTargets(hosts[n], sourceFile, httpPorts, httpsPorts);
    if u.Some? {
      assert [] + u.value == u.value;
    }
    assert HostsTargets(one, sourceFile, httpPorts, httpsPorts) == u;
    assert hosts[..n] + (one + hosts[n + 1..]) == hosts;
    HostsTargetsAppend(one, hosts[n + 1..], sourceFile, httpPorts, httpsPorts);
    HostsTargetsAppend(hosts[..n], one + hosts[n + 1..], sourceFile, httpPorts, httpsPorts);
  }

  /** A host without any address contributes nothing, whatever its ports. */
  lemma UnaddressedSkipped(h: NmapHost, sourceFile: string, httpPorts: seq<int>, httpsPorts: seq<int>)
    requires h.ipv4.None? && h.ipv6.None?
    ensures HostTargets(h, sourceFile, httpPorts, httpsPorts) == Some([])
  {
  }

  /** A bad `portid` on an open tcp service port empties the whole result. */
  lemma {:induction false} BadPortEmpties(hosts: seq<NmapHost>, i: nat, j: nat, sourceFile: string, httpPorts: seq<int>, httpsPorts: seq<int>)
    requires i < |hosts| && Address(hosts[i]).Some? && j < |hosts[i].ports|
    requires var p := hosts[i].ports[j]; p.protocol == "tcp" && p.state == Some("open") && p.service.Some? && ParseInt(p.portid).None?
    ensures HostsTargets(hosts, sourceFile, httpPorts, httpsPorts).None?
  {
    var h := hosts[i];
    var ip := Address(h).value;
    assert h.ports[..j + 1][..j] == h.ports[..j];
    assert PortsTargets(h.hostname.GetOr(ip), ip, h.ports[..j + 1], sourceFile, httpPorts, httpsPorts).None?;
    PortsAbortSticks(h.hostname.GetOr(ip), ip, h.ports, j + 1, sourceFile, httpPorts, httpsPorts);
    assert hosts[..i + 1][..i] == hosts[..i];
    assert hosts[..i + 1][i] == h;
    assert HostsTargets(hosts[..i + 1], sourceFile, httpPorts, httpsPorts).None?;
    HostsAbortSticks(hosts, i + 1, sourceFile, httpPorts, httpsPorts);
  }
}
