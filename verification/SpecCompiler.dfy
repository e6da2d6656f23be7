/**
 `NewIngressLBSpec` of src/ingress/spec.go: from an Ingress to the wanted tables of a load balancer.

 The functions give the outcome step by step; the methods at the end are the loops of the source,
 proved against them.
 */
module SpecCompiler {
  import opened Wrappers
  import opened Names
  import opened SortedSets
  import opened Tables
  import RoutingRules
  import opened Conditions

  type IngressPath = RoutingRules.IngressPath

  datatype IngressRule = IngressRule(host: string, http: Option<seq<IngressPath>>)

  datatype Tls = Tls(hosts: seq<string>, secret: string)

  /**
   `opening` is the error, if any, of the checks before the first rule (validation, internal and shape annotations, the list
   of nodes), `closing` that of the subnet and address lookups after the last listener. `policy` is what the
   load-balancer-policy annotation gives, `forceRedirect` the redirect annotation in lower case.
   */
  datatype Ingress = Ingress(
    namespace: string, rules: seq<IngressRule>, tls: seq<Tls>, defaultBackend: Option<RoutingRules.Backend>,
    policy: Result<string>, forceRedirect: string, opening: Option<string>, closing: Option<string>)

  datatype ServicePort = ServicePort(name: string, protocol: string, port: nat, nodePort: int)

  /** `healthChecker` is what the health-check annotations give. */
  datatype Service = Service(name: string, ports: seq<ServicePort>, healthChecker: Result<HealthChecker>)

  datatype Bundle = Bundle(id: string, publicPem: string, caPem: string)

  datatype Node = Node(name: string, ip: string)

  /** What the Kubernetes API answers: services and certificate secrets by name, and the nodes. */
  datatype Cluster = Cluster(services: map<string, Service>, secrets: map<string, Bundle>, nodes: seq<Node>)

  /** The hash, the name given to the rule of a path, URL parsing, and the default for redirection. */
  datatype Env = Env(gen: Hash, ruleName: IngressPath -> string, parse: RoutingRules.UrlParser, redirectByDefault: bool)

  /** Ports have at most five digits and a protocol, and a service is found under its own name. */
  predicate ServicesFit(cluster: Cluster) {
    forall name <- cluster.services :: cluster.services[name].name == name && PortsFit(cluster.services[name].ports)
  }

  predicate PortsFit(ports: seq<ServicePort>) {
    forall p <- ports :: p.protocol != "" && p.port < 100000
  }

  const DUMMY := "dummy"

  // The listeners that belong to no host.
  const DEFAULT_BACKEND := "DefaultBackend-http"
  const CATCH_ALL := "Sans-VirtualHost-HTTP"
  const REDIRECTOR := "http-to-https-redirector"

  // ---------------------------------------------------------------------------------------------
  // Backends

  /** The loop over service ports: the port number sought, and the node port found so far. */
  function Scan(ports: seq<ServicePort>, svcPort: int, portName: string, nodePort: int): (int, int) {
    if ports == [] then (svcPort, nodePort)
    else
      var p := ports[0];
      if p.protocol != "TCP" || (if svcPort == 0 then p.name != portName else p.port != svcPort)
      then Scan(ports[1..], svcPort, portName, nodePort)
      else Scan(ports[1..], if svcPort == 0 then p.port else svcPort, portName, if p.nodePort > 0 then p.nodePort else nodePort)
  }

  ghost predicate HasTcpPort(ports: seq<ServicePort>, number: int) {
    exists p <- ports :: p.protocol == "TCP" && p.port == number
  }

  /** The node port of a TCP port with the number; a service port without number would match any. */
  ghost predicate IsNodePort(ports: seq<ServicePort>, number: int, nodePort: int) {
    exists p <- ports :: p.protocol == "TCP" && p.nodePort == nodePort && (p.port == number || p.port == 0)
  }

  /** A node port is found only with a TCP port that has the number finally sought, and it is the node port of such a port. */
  lemma {:induction false} ScanFinds(ports: seq<ServicePort>, svcPort: int, portName: string, nodePort: int)
    ensures var (number, found) := Scan(ports, svcPort, portName, nodePort);
      && (found == -1 || HasTcpPort(ports, number) || (number == svcPort && found == nodePort))
      && (found == nodePort || (IsNodePort(ports, number, found) && found > 0))
      && (svcPort != 0 ==> number == svcPort)
  {
    if ports != [] {
      var p := ports[0];
      if p.protocol != "TCP" || (if svcPort == 0 then p.name != portName else p.port != svcPort) {
        ScanFinds(ports[1..], svcPort, portName, nodePort);
      } else {
        ScanFinds(ports[1..], if svcPort == 0 then p.port else svcPort, portName, if p.nodePort > 0 then p.nodePort else nodePort);
      }
      assert forall q :: q in ports[1..] ==> q in ports;
      assert p in ports;
    }
  }

  /** `processBackendSpec`: the name of the backend set for a backend. */
  function Resolve(env: Env, cluster: Cluster, backend: RoutingRules.Backend): Result<string>
    requires GoodHash(env.gen) && ServicesFit(cluster)
  {
    match backend
    case ResourceBackend => Failure("Backend.Resource not supported")
    case ServiceBackend(name, number, portName) =>
      if name !in cluster.services then Failure("Could not find service")
      else
        var (port, nodePort) := Scan(cluster.services[name].ports, number, portName, -1);
        ScanFinds(cluster.services[name].ports, number, portName, -1);
        if nodePort == -1 then Failure("Could not find NodePort")
        else Success(BackendSetName(env.gen, name, "TCP", port))
  }

  /** Ports as Kubernetes validates them: numbered, of one of three protocols, and no two alike. */
  predicate PortsTold(ports: seq<ServicePort>) {
    && (forall p <- ports :: 0 < p.port && (p.protocol == "TCP" || p.protocol == "UDP" || p.protocol == "SCTP"))
    && (forall i, j | 0 <= i < j < |ports| :: ports[i].port != ports[j].port || ports[i].protocol != ports[j].protocol)
  }

  /** The port a backend means: the first TCP port with the name, or with the number if one is given. */
  predicate IsPortOf(ports: seq<ServicePort>, backend: RoutingRules.Backend, i: nat)
    requires i < |ports| && backend.ServiceBackend?
  {
    && ports[i].protocol == "TCP"
    && if backend.number == 0
       then ports[i].name == backend.portName && forall j | 0 <= j < i :: ports[j].protocol == "TCP" ==> ports[j].name != backend.portName
       else ports[i].port == backend.number && forall j | 0 <= j < i :: ports[j].protocol == "TCP" ==> ports[j].port != backend.number
  }

  /** A TCP port with the number has a node port. */
  ghost predicate HasNodePort(ports: seq<ServicePort>, number: int) {
    exists p <- ports :: p.protocol == "TCP" && p.port == number && p.nodePort > 0
  }

  /** With a number to look for, the search finds a node port exactly if there is one. */
  lemma {:induction false} ScanByNumber(ports: seq<ServicePort>, number: int, portName: string, nodePort: int)
    requires number != 0
    ensures var (sought, found) := Scan(ports, number, portName, nodePort);
      && sought == number && (HasNodePort(ports, number) ==> found > 0) && (!HasNodePort(ports, number) ==> found == nodePort)
  {
    if ports != [] {
      var p := ports[0];
      var next := if p.protocol == "TCP" && p.port == number && p.nodePort > 0 then p.nodePort else nodePort;
      ScanByNumber(ports[1..], number, portName, next);
      assert forall q :: q in ports <==> q == p || q in ports[1..];
    }
  }

  /** Ports of other names and protocols are passed over while no number is known. */
  lemma {:induction false} ScanSkips(ports: seq<ServicePort>, portName: string, nodePort: int, n: nat)
    requires n <= |ports| && forall j | 0 <= j < n :: ports[j].protocol == "TCP" ==> ports[j].name != portName
    ensures Scan(ports, 0, portName, nodePort) == Scan(ports[n..], 0, portName, nodePort)
  {
    if n > 0 {
      assert forall j | 0 <= j < n - 1 :: ports[1..][j] == ports[j + 1];
      ScanSkips(ports[1..], portName, nodePort, n - 1);
      assert ports[1..][n - 1..] == ports[n..];
    }
  }

  /** A name fixes the number: that of the first TCP port with the name. */
  lemma ScanByName(ports: seq<ServicePort>, backend: RoutingRules.Backend, i: nat)
    requires i < |ports| && backend.ServiceBackend? && backend.number == 0 && IsPortOf(ports, backend, i) && ports[i].port != 0
    ensures var (sought, found) := Scan(ports, 0, backend.portName, -1);
      && sought == ports[i].port && (found != -1 <==> HasNodePort(ports[i..], ports[i].port))
  {
    ScanSkips(ports, backend.portName, -1, i);
    var p, rest := ports[i], ports[i..];
    assert rest[0] == p && rest[1..] == ports[i + 1..];
    ScanByNumber(rest[1..], p.port, backend.portName, if p.nodePort > 0 then p.nodePort else -1);
    assert forall q :: q in rest <==> q == p || q in rest[1..];
  }

  /**
   What a backend resolves to, in general. With a port name, the number sought is that of the first TCP port with the name,
   and without such a port resolving fails; it succeeds if a TCP port of that number, from there on, has a node port.
   */
  lemma NamedPort(env: Env, cluster: Cluster, backend: RoutingRules.Backend)
    requires GoodHash(env.gen) && ServicesFit(cluster)
    requires backend.ServiceBackend? && backend.number == 0 && backend.service in cluster.services
    ensures var ports := cluster.services[backend.service].ports;
      && ((forall p <- ports :: p.protocol == "TCP" ==> p.name != backend.portName) ==> Resolve(env, cluster, backend).Failure?)
      && forall i: nat | i < |ports| && IsPortOf(ports, backend, i) && ports[i].port != 0 ::
           Resolve(env, cluster, backend)
           == if HasNodePort(ports[i..], ports[i].port) then Success(BackendSetName(env.gen, backend.service, "TCP", ports[i].port))
              else Failure("Could not find NodePort")
  {
    hide Scan;
    var ports := cluster.services[backend.service].ports;
    if forall p <- ports :: p.protocol == "TCP" ==> p.name != backend.portName {
      ScanSkips(ports, backend.portName, -1, |ports|);
      NothingScanned(ports[|ports|..], backend.portName);
    }
    forall i: nat | i < |ports| && IsPortOf(ports, backend, i) && ports[i].port != 0
      ensures Resolve(env, cluster, backend)
           == if HasNodePort(ports[i..], ports[i].port) then Success(BackendSetName(env.gen, backend.service, "TCP", ports[i].port))
              else Failure("Could not find NodePort")
    {
      ScanByName(ports, backend, i);
    }
  }

  lemma NothingScanned(ports: seq<ServicePort>, portName: string)
    requires ports == []
    ensures Scan(ports, 0, portName, -1) == (0, -1)
  {
  }

  /** With a port number it is the number itself, and some TCP port of that number must have a node port. */
  lemma NumberedPort(env: Env, cluster: Cluster, backend: RoutingRules.Backend)
    requires GoodHash(env.gen) && ServicesFit(cluster)
    requires backend.ServiceBackend? && backend.number != 0 && backend.service in cluster.services
    ensures Resolve(env, cluster, backend).Success? <==> HasNodePort(cluster.services[backend.service].ports, backend.number)
    ensures Resolve(env, cluster, backend).Success? ==>
      0 <= backend.number < 100000 && Resolve(env, cluster, backend).value == BackendSetName(env.gen, backend.service, "TCP", backend.number)
  {
    hide Scan;
    ScanByNumber(cluster.services[backend.service].ports, backend.number, backend.portName, -1);
  }

  /** Among ports that are told apart, the port meant is the only TCP port of its number. */
  lemma OnlyPort(ports: seq<ServicePort>, backend: RoutingRules.Backend, i: nat)
    requires i < |ports| && backend.ServiceBackend? && PortsTold(ports) && IsPortOf(ports, backend, i)
    ensures HasNodePort(ports[i..], ports[i].port) <==> ports[i].nodePort > 0
    ensures HasNodePort(ports, ports[i].port) <==> ports[i].nodePort > 0
  {
    assert ports[i..][0] == ports[i] && ports[i] in ports[i..];
    forall p | p in ports && p.protocol == "TCP" && p.port == ports[i].port ensures p == ports[i] {
      var j :| 0 <= j < |ports| && ports[j] == p;
    }
    assert forall p :: p in ports[i..] ==> p in ports;
  }

  lemma {:induction false} FirstPort(ports: seq<ServicePort>, backend: RoutingRules.Backend, n: nat) returns (i: nat)
    requires n < |ports| && backend.ServiceBackend? && ports[n].protocol == "TCP"
    requires if backend.number == 0 then ports[n].name == backend.portName else ports[n].port == backend.number
    ensures i <= n && IsPortOf(ports, backend, i)
  {
    if IsPortOf(ports, backend, n) {
      i := n;
    } else {
      var j :| 0 <= j < n && ports[j].protocol == "TCP"
        && if backend.number == 0 then ports[j].name == backend.portName else ports[j].port == backend.number;
      i := FirstPort(ports, backend, j);
    }
  }

  lemma ResolvedByPort(env: Env, cluster: Cluster, backend: RoutingRules.Backend, i: nat)
    requires GoodHash(env.gen) && ServicesFit(cluster)
    requires backend.ServiceBackend? && backend.service in cluster.services && PortsTold(cluster.services[backend.service].ports)
    requires i < |cluster.services[backend.service].ports| && IsPortOf(cluster.services[backend.service].ports, backend, i)
    ensures var p := cluster.services[backend.service].ports[i];
      && (Resolve(env, cluster, backend).Success? <==> p.nodePort > 0)
      && (p.nodePort > 0 ==> Resolve(env, cluster, backend).value == BackendSetName(env.gen, backend.service, "TCP", p.port))
  {
    hide Resolve, BackendSetName;
    OnlyPort(cluster.services[backend.service].ports, backend, i);
    if backend.number == 0 {
      NamedPort(env, cluster, backend);
    } else {
      NumberedPort(env, cluster, backend);
    }
  }

  lemma ResolvedHasPort(env: Env, cluster: Cluster, backend: RoutingRules.Backend) returns (i: nat)
    requires GoodHash(env.gen) && ServicesFit(cluster) && Resolve(env, cluster, backend).Success?
    ensures backend.ServiceBackend? && backend.service in cluster.services
    ensures i < |cluster.services[backend.service].ports| && IsPortOf(cluster.services[backend.service].ports, backend, i)
  {
    hide BackendSetName, Scan;
    var ports := cluster.services[backend.service].ports;
    if backend.number == 0 {
      NamedPort(env, cluster, backend);
      var p :| p in ports && p.protocol == "TCP" && p.name == backend.portName;
      var n :| 0 <= n < |ports| && ports[n] == p;
      i := FirstPort(ports, backend, n);
    } else {
      NumberedPort(env, cluster, backend);
      var p :| p in ports && p.protocol == "TCP" && p.port == backend.number;
      var n :| 0 <= n < |ports| && ports[n] == p;
      i := FirstPort(ports, backend, n);
    }
  }

  /**
   What an answer for a backend has to be, in terms of the ports of its service: the name of the backend set of the port it means,
   provided that port has a node port.
   */
  ghost predicate AnswersForPort(env: Env, cluster: Cluster, backend: RoutingRules.Backend, answer: Result<string>)
    requires GoodHash(env.gen) && ServicesFit(cluster)
    requires backend.ServiceBackend? && backend.service in cluster.services ==> PortsTold(cluster.services[backend.service].ports)
  {
    && (answer.Success? <==>
          && backend.ServiceBackend? && backend.service in cluster.services
          && var ports := cluster.services[backend.service].ports;
             exists i: nat :: i < |ports| && IsPortOf(ports, backend, i) && ports[i].nodePort > 0)
    && (answer.Success? ==>
          var ports := cluster.services[backend.service].ports;
          forall i: nat :: i < |ports| && IsPortOf(ports, backend, i) ==>
            ports[i].nodePort > 0 && answer.value == BackendSetName(env.gen, backend.service, "TCP", ports[i].port))
  }

  /** Among ports that are told apart, a backend resolves to the set of the port it means, exactly if that has a node port. */
  lemma ResolvesToPort(env: Env, cluster: Cluster, backend: RoutingRules.Backend)
    requires GoodHash(env.gen) && ServicesFit(cluster)
    requires backend.ServiceBackend? && backend.service in cluster.services ==> PortsTold(cluster.services[backend.service].ports)
    ensures AnswersForPort(env, cluster, backend, Resolve(env, cluster, backend))
  {
    hide Scan, BackendSetName;
    if backend.ServiceBackend? && backend.service in cluster.services {
      var ports := cluster.services[backend.service].ports;
      forall i: nat | i < |ports| && IsPortOf(ports, backend, i)
        ensures Resolve(env, cluster, backend).Success? <==> ports[i].nodePort > 0
        ensures Resolve(env, cluster, backend).Success? ==>
          Resolve(env, cluster, backend).value == BackendSetName(env.gen, backend.service, "TCP", ports[i].port)
      {
        ResolvedByPort(env, cluster, backend, i);
      }
      if Resolve(env, cluster, backend).Success? {
        var i := ResolvedHasPort(env, cluster, backend);
      }
    }
  }

  /** A backend that names the second port of a service gets the second port. */
  lemma SecondPortByName(env: Env, cluster: Cluster, web: string)
    requires GoodHash(env.gen) && ServicesFit(cluster) && web in cluster.services
    requires cluster.services[web].ports == [ServicePort("http", "TCP", 80, 30080), ServicePort("https", "TCP", 443, 30443)]
    ensures Resolve(env, cluster, RoutingRules.ServiceBackend(web, 0, "https")) == Success(BackendSetName(env.gen, web, "TCP", 443))
  {
    assert |"http"| != |"https"|;
    ResolvedByPort(env, cluster, RoutingRules.ServiceBackend(web, 0, "https"), 1);
  }

  function SetName(env: Env, service: Service, i: nat): string
    requires GoodHash(env.gen) && PortsFit(service.ports) && i < |service.ports|
  {
    var p := service.ports[i];
    BackendSetName(env.gen, service.name, p.protocol, p.port)
  }

  /** The name is one of the backend sets a service gets, one for each port. */
  ghost predicate IsSetName(env: Env, service: Service, name: string)
    requires GoodHash(env.gen) && PortsFit(service.ports)
  {
    exists i: nat :: i < |service.ports| && SetName(env, service, i) == name
  }

  /** The service a backend names. */
  function ServicesOf(backend: RoutingRules.Backend): set<string> {
    if backend.ServiceBackend? then {backend.service} else {}
  }

  /** What a backend resolves to is one of the sets of its service. */
  lemma ResolvedIsSet(env: Env, cluster: Cluster, backend: RoutingRules.Backend)
    requires GoodHash(env.gen) && ServicesFit(cluster) && Resolve(env, cluster, backend).Success?
    ensures backend.ServiceBackend? && backend.service in cluster.services
    ensures IsSetName(env, cluster.services[backend.service], Resolve(env, cluster, backend).value)
  {
    var service := cluster.services[backend.service];
    ScanFinds(service.ports, backend.number, backend.portName, -1);
    var p :| p in service.ports && p.protocol == "TCP" && p.port == Scan(service.ports, backend.number, backend.portName, -1).0;
    var i: nat :| i < |service.ports| && service.ports[i] == p;
    assert SetName(env, service, i) == Resolve(env, cluster, backend).value;
  }

  // ---------------------------------------------------------------------------------------------
  // Routing rules

  function RuleOf(env: Env, cluster: Cluster, p: IngressPath, host: string): Result<Rule>
    requires GoodHash(env.gen) && ServicesFit(cluster)
  {
    match Resolve(env, cluster, p.backend)
    case Failure(e) => Failure(e)
    case Success(backendSet) =>
      match RoutingRules.RuleCondition(env.parse, p, host)
      case Failure(e) => Failure(e)
      case Success(condition) => Success(Rule(env.ruleName(p), condition, backendSet))
  }

  predicate HasName(rules: seq<Rule>, name: string) {
    exists r <- rules :: r.name == name
  }

  /** The routing rules of one Ingress rule; a rule whose name occurred before is ignored. */
  function HttpRules(env: Env, cluster: Cluster, paths: seq<IngressPath>, host: string): Result<seq<Rule>>
    requires GoodHash(env.gen) && ServicesFit(cluster)
  {
    if paths == [] then Success([])
    else match HttpRules(env, cluster, paths[..|paths| - 1], host)
      case Failure(e) => Failure(e)
      case Success(rules) =>
        match RuleOf(env, cluster, paths[|paths| - 1], host)
        case Failure(e) => Failure(e)
        case Success(r) => Success(if HasName(rules, r.name) then rules else rules + [r])
  }

  // ---------------------------------------------------------------------------------------------
  // The tables, step by step

  /** `hostsWithTLS`: the secret for each host, the last entry winning. */
  function HostsWithTls(tls: seq<Tls>): map<string, string> {
    if tls == [] then map[]
    else
      var last := tls[|tls| - 1];
      HostsWithTls(tls[..|tls| - 1]) + map h | h in last.hosts :: last.secret
  }

  /** The SSL configuration of a TLS host, whose secret must exist. */
  function SslFor(cluster: Cluster, ing: Ingress, host: string): Option<Ssl> {
    var tls := HostsWithTls(ing.tls);
    if host in tls && tls[host] in cluster.secrets
    then Some(Ssl(CertificateName(ing.namespace, tls[host], cluster.secrets[tls[host]]), 1, false, "oci-default-http2-ssl-cipher-suite-v1"))
    else None
  }

  function CertificateName(namespace: string, secret: string, bundle: Bundle): string {
    namespace + "_" + secret + "_" + bundle.id
  }

  /** Adding what is not there yet. */
  function AddNew(s: Store, k: Key, r: Resource): Store {
    if k in s then s else s[k := r]
  }

  /** The SSL configuration for a TLS host, and the tables with its certificate. */
  function AddCertificate(cluster: Cluster, ing: Ingress, s: Store, host: string): Result<(Option<Ssl>, Store)> {
    var tls := HostsWithTls(ing.tls);
    if host !in tls then Success((None, s))
    else if host == "" || tls[host] == "" then Failure("empty hostname or secretName")
    else if tls[host] !in cluster.secrets then Failure("no certificate")
    else
      var bundle := cluster.secrets[tls[host]];
      var name := CertificateName(ing.namespace, tls[host], bundle);
      Success((Some(Ssl(name, 1, false, "oci-default-http2-ssl-cipher-suite-v1")),
               AddNew(s, Key(Certificates, name), Certificate(bundle.publicPem, bundle.caPem))))
  }

  function AddHostname(env: Env, s: Store, host: string): Store
    requires GoodHash(env.gen)
  {
    if host == "" then s else AddNew(s, Key(Hostnames, HostnameName(env.gen, host)), Hostname(host))
  }

  /** The host behind a hostname entry: the one it was made for. */
  function EntryHost(env: Env, s: Store, host: string): string
    requires GoodHash(env.gen)
  {
    var k := Key(Hostnames, HostnameName(env.gen, host));
    if host != "" && k in s && s[k].Hostname? then s[k].hostname else host
  }

  /** A new policy, or the rules appended to the policy of that name. */
  function AddPolicy(s: Store, name: string, rules: seq<Rule>): Store {
    var k := Key(RoutingPolicies, name);
    s[k := RoutingPolicy("V1", if k in s && s[k].RoutingPolicy? then s[k].rules + rules else rules)]
  }

  function HostListener(env: Env, host: string, ssl: Option<Ssl>): Resource
    requires GoodHash(env.gen)
  {
    Listener(DUMMY, if ssl.Some? then 443 else 80, if ssl.Some? then "HTTP2" else "HTTP", ssl, None,
             if host == "" then [] else [HostnameName(env.gen, host)], RoutingPolicyName(env.gen, host), [])
  }

  /** One round of the loop over the Ingress rules. */
  function AddRule(env: Env, cluster: Cluster, ing: Ingress, s: Store, rule: IngressRule): Result<Store>
    requires GoodHash(env.gen) && ServicesFit(cluster)
  {
    match rule.http
    case None => Failure("nil dereference")
    case Some(paths) =>
      match HttpRules(env, cluster, paths, rule.host)
      case Failure(e) => Failure(e)
      case Success(rules) =>
        match AddCertificate(cluster, ing, s, rule.host)
        case Failure(e) => Failure(e)
        case Success((ssl, s1)) =>
          var s2 := AddHostname(env, s1, rule.host);
          var owner := EntryHost(env, s2, rule.host);
          if !IsListenerName(ListenerName(env.gen, owner)) then Failure("Invalid Listener name.")
          else if !IsPolicyName(RoutingPolicyName(env.gen, rule.host)) then Failure("Invalid Routing policy name.")
          else
            var s3 := AddPolicy(s2, RoutingPolicyName(env.gen, rule.host), rules);
            Success(s3[Key(Listeners, ListenerName(env.gen, owner)) := HostListener(env, rule.host, ssl)])
  }

  /** The tables after the first `n` Ingress rules. */
  function AddRules(env: Env, cluster: Cluster, ing: Ingress, n: nat): Result<Store>
    requires GoodHash(env.gen) && ServicesFit(cluster) && n <= |ing.rules|
  {
    if n == 0 then Success(map[])
    else match AddRules(env, cluster, ing, n - 1)
      case Failure(e) => Failure(e)
      case Success(s) => AddRule(env, cluster, ing, s, ing.rules[n - 1])
  }

  /** `createDefaultBackendRoutingRule`. */
  function DefaultRule(backendSet: string): Rule {
    Rule("default-backend-route", "all(" + PATH + "sw '" + "/" + "')", backendSet)
  }

  /** A default rule at the end of every policy. */
  function AppendToPolicies(s: Store, r: Rule): Store {
    map k <- s :: if s[k].RoutingPolicy? then RoutingPolicy(s[k].version, s[k].rules + [r]) else s[k]
  }

  function PlainListener(backendSet: string): Resource {
    Listener(backendSet, 80, "HTTP", None, None, [], "", [])
  }

  /** The default backend, or the listener that catches requests for other hosts. */
  function AddDefault(env: Env, cluster: Cluster, ing: Ingress, s: Store): Result<Store>
    requires GoodHash(env.gen) && ServicesFit(cluster)
  {
    match ing.defaultBackend
    case None => Success(s[Key(Listeners, CATCH_ALL) := PlainListener(DUMMY)])
    case Some(backend) =>
      match Resolve(env, cluster, backend)
      case Failure(e) => Failure(e)
      case Success(backendSet) =>
        Success(AppendToPolicies(s[Key(Listeners, DEFAULT_BACKEND) := PlainListener(backendSet)], DefaultRule(backendSet)))
  }

  predicate Redirects(env: Env, ing: Ingress) {
    HostsWithTls(ing.tls) != map[] && (ing.forceRedirect == "true" || (ing.forceRedirect == "" && env.redirectByDefault))
  }

  const REDIRECTION := "https_redirection"

  /** The listener names the TLS hosts as they are, not the hostname entries made for them. */
  function Redirector(ing: Ingress): Resource {
    Listener(DUMMY, 80, "HTTP", None, None, Ascending(HostsWithTls(ing.tls).Keys), "", [REDIRECTION])
  }

  function AddRedirector(env: Env, ing: Ingress, s: Store): Store {
    if Redirects(env, ing)
    then s[Key(RuleSets, REDIRECTION) := RuleSet(["redirect / to https, port 443, code 308"])]
          [Key(Listeners, REDIRECTOR) := Redirector(ing)]
    else s
  }

  /** All tables but the backend sets. */
  function Front(env: Env, cluster: Cluster, ing: Ingress): Result<Store>
    requires GoodHash(env.gen) && ServicesFit(cluster)
  {
    match AddRules(env, cluster, ing, |ing.rules|)
    case Failure(e) => Failure(e)
    case Success(s) =>
      match AddDefault(env, cluster, ing, s)
      case Failure(e) => Failure(e)
      case Success(t) => Success(AddRedirector(env, ing, t))
  }

  /** The services named by the paths of the first `n` rules. */
  function ServicesOfPaths(paths: seq<IngressPath>): set<string> {
    if paths == [] then {} else ServicesOfPaths(paths[..|paths| - 1]) + ServicesOf(paths[|paths| - 1].backend)
  }

  function ServicesOfRules(rules: seq<IngressRule>): set<string> {
    if rules == [] then {}
    else
      var last := rules[|rules| - 1];
      ServicesOfRules(rules[..|rules| - 1]) + if last.http.Some? then ServicesOfPaths(last.http.value) else {}
  }

  function Services(ing: Ingress): set<string> {
    ServicesOfRules(ing.rules) + if ing.defaultBackend.Some? then ServicesOf(ing.defaultBackend.value) else {}
  }

  // ---------------------------------------------------------------------------------------------
  // Backend sets

  /** `getBackends`: nodes without an internal address are skipped. */
  function Backends(nodes: seq<Node>, nodePort: int): seq<Backend> {
    if nodes == [] then []
    else Backends(nodes[..|nodes| - 1], nodePort)
         + if nodes[|nodes| - 1].ip == "" then [] else [Backend(nodes[|nodes| - 1].ip, nodePort, 1)]
  }

  /** `GetBackendSets` for the first ports of a service. */
  function BackendSetsOf(env: Env, cluster: Cluster, service: Service, policy: string, n: nat): Store
    requires GoodHash(env.gen) && PortsFit(service.ports) && n <= |service.ports| && service.healthChecker.Success?
  {
    if n == 0 then map[]
    else
      BackendSetsOf(env, cluster, service, policy, n - 1)
        [Key(BackendSets, SetName(env, service, n - 1)) :=
         BackendSet(policy, Backends(cluster.nodes, service.ports[n - 1].nodePort), Some(service.healthChecker.value))]
  }

  function DummySet(policy: string): Resource {
    BackendSet(policy, [], Some(HealthChecker("HTTP", "/", 0, 3, 10000, 3000, 0, "")))
  }
}
