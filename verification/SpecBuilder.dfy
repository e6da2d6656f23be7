/**
 `NewIngressLBSpec` step by step: the closures and loops that fill the tables in place, proved against the
 functions of `SpecCompiler`.
 */
module SpecBuilder {
  import opened Wrappers
  import opened Names
  import opened Tables
  import RoutingRules
  import opened SpecCompiler
  import opened SpecClosure

  // ---------------------------------------------------------------------------------------------
  // TLS hosts

  function TlsHosts(entry: Tls, n: nat): map<string, string>
    requires n <= |entry.hosts|
  {
    map h | h in entry.hosts[..n] :: entry.secret
  }

  lemma HostsStep(tls: seq<Tls>, i: nat)
    requires i < |tls|
    ensures HostsWithTls(tls[..i + 1]) == HostsWithTls(tls[..i]) + TlsHosts(tls[i], |tls[i].hosts|)
  {
    assert tls[..i + 1][..i] == tls[..i];
    assert tls[i].hosts[..|tls[i].hosts|] == tls[i].hosts;
  }

  lemma HostStep(before: map<string, string>, entry: Tls, j: nat)
    requires j < |entry.hosts|
    ensures before + TlsHosts(entry, j + 1) == (before + TlsHosts(entry, j))[entry.hosts[j] := entry.secret]
  {
    assert entry.hosts[..j + 1] == entry.hosts[..j] + [entry.hosts[j]];
  }

  method CollectHosts(tls: seq<Tls>) returns (hosts: map<string, string>)
    ensures hosts == HostsWithTls(tls)
  {
    hosts := map[];
    for i := 0 to |tls|
      invariant hosts == HostsWithTls(tls[..i])
    {
      ghost var before := hosts;
      for j := 0 to |tls[i].hosts|
        invariant hosts == before + TlsHosts(tls[i], j)
      {
        HostStep(before, tls[i], j);
        hosts := hosts[tls[i].hosts[j] := tls[i].secret];
      }
      HostsStep(tls, i);
    }
    assert tls[..|tls|] == tls;
  }

  // ---------------------------------------------------------------------------------------------
  // A failing round makes the whole fail

  lemma {:induction false} HttpRulesFail(env: Env, cluster: Cluster, paths: seq<IngressPath>, host: string, n: nat)
    requires GoodHash(env.gen) && ServicesFit(cluster) && n <= |paths|
    requires HttpRules(env, cluster, paths[..n], host).Failure?
    ensures HttpRules(env, cluster, paths, host) == HttpRules(env, cluster, paths[..n], host)
    decreases |paths| - n
  {
    if n == |paths| {
      assert paths[..n] == paths;
    } else {
      assert paths[..n + 1][..n] == paths[..n];
      HttpRulesFail(env, cluster, paths, host, n + 1);
    }
  }

  lemma NoRulesYet(env: Env, cluster: Cluster, paths: seq<IngressPath>, host: string)
    requires GoodHash(env.gen) && ServicesFit(cluster)
    ensures HttpRules(env, cluster, paths[..0], host) == Success([]) && ServicesOfPaths(paths[..0]) == {}
  {
  }

  lemma RulesSoFar(env: Env, cluster: Cluster, paths: seq<IngressPath>, host: string, i: nat)
    requires GoodHash(env.gen) && ServicesFit(cluster) && i < |paths| && HttpRules(env, cluster, paths[..i], host).Success?
    ensures ServicesOfPaths(paths[..i + 1]) == ServicesOfPaths(paths[..i]) + ServicesOf(paths[i].backend)
    ensures var rules := HttpRules(env, cluster, paths[..i], host).value;
      HttpRules(env, cluster, paths[..i + 1], host)
      == match RuleOf(env, cluster, paths[i], host)
         case Failure(e) => Failure(e)
         case Success(r) => Success(if HasName(rules, r.name) then rules else rules + [r])
  {
    assert paths[..i + 1][..i] == paths[..i];
  }

  lemma {:induction false} AddRulesFail(env: Env, cluster: Cluster, ing: Ingress, n: nat, m: nat)
    requires GoodHash(env.gen) && ServicesFit(cluster) && n <= m <= |ing.rules|
    requires AddRules(env, cluster, ing, n).Failure?
    ensures AddRules(env, cluster, ing, m) == AddRules(env, cluster, ing, n)
  {
    hide AddRule;
    if n < m { AddRulesFail(env, cluster, ing, n, m - 1); }
  }

  /** The loop of `processBackendSpec` over the ports of a service. */
  method SearchPorts(ports: seq<ServicePort>, number: int, portName: string) returns (svcPort: int, nodePort: int)
    ensures (svcPort, nodePort) == Scan(ports, number, portName, -1)
  {
    svcPort, nodePort := number, -1;
    for i := 0 to |ports|
      invariant Scan(ports[i..], svcPort, portName, nodePort) == Scan(ports, number, portName, -1)
    {
      var p := ports[i];
      if p.protocol != "TCP" { continue; }
      if svcPort == 0 {
        if p.name != portName { continue; }
        svcPort := p.port;
      } else if p.port != svcPort {
        continue;
      }
      if p.nodePort > 0 { nodePort := p.nodePort; }
    }
  }

  // ---------------------------------------------------------------------------------------------
  // The tables under construction

  /** The collections `NewIngressLBSpec` fills, and the services it has looked up so far. */
  class Builder {
    const env: Env
    const cluster: Cluster
    const ing: Ingress
    var tables: Store
    var services: map<string, Service>

    ghost predicate Valid()
      reads this
    {
      && GoodHash(env.gen) && ServicesFit(cluster)
      && forall name <- services :: name in cluster.services && services[name] == cluster.services[name]
    }

    constructor (env: Env, cluster: Cluster, ing: Ingress)
      requires GoodHash(env.gen) && ServicesFit(cluster)
      ensures Valid() && this.env == env && this.cluster == cluster && this.ing == ing
      ensures tables == map[] && services == map[]
    {
      this.env, this.cluster, this.ing := env, cluster, ing;
      tables, services := map[], map[];
    }

    /** `processBackendSpec`: looks the service up once, then searches its ports. */
    method ProcessBackendSpec(backend: RoutingRules.Backend) returns (r: Result<string>)
      requires Valid()
      modifies this`services
      ensures Valid()
      ensures r == Resolve(env, cluster, backend)
      ensures r.Success? ==> services.Keys == old(services.Keys) + ServicesOf(backend)
      ensures (backend.ServiceBackend? && backend.service in cluster.services ==> PortsTold(cluster.services[backend.service].ports)) ==>
        AnswersForPort(env, cluster, backend, r)
    {
      hide AnswersForPort, PortsTold;
      if backend.ServiceBackend? && backend.service in cluster.services ==> PortsTold(cluster.services[backend.service].ports) {
        ResolvesToPort(env, cluster, backend);
      }
      if backend.ResourceBackend? { return Failure("Backend.Resource not supported"); }
      var name := backend.service;
      if name !in services {
        if name !in cluster.services { return Failure("Could not find service"); }
        services := services[name := cluster.services[name]];
      }
      var ports := services[name].ports;
      var svcPort, nodePort := SearchPorts(ports, backend.number, backend.portName);
      if nodePort == -1 { return Failure("Could not find NodePort"); }
      ScanFinds(ports, backend.number, backend.portName, -1);
      return Success(BackendSetName(env.gen, name, "TCP", svcPort));
    }

    /** The loop over the paths of an Ingress rule. */
    method CompilePaths(paths: seq<IngressPath>, host: string) returns (r: Result<seq<Rule>>)
      requires Valid()
      modifies this`services
      ensures Valid()
      ensures r == HttpRules(env, cluster, paths, host)
      ensures r.Success? ==> services.Keys == old(services.Keys) + ServicesOfPaths(paths)
    {
      hide RuleOf, HttpRules, ServicesOfPaths;
      NoRulesYet(env, cluster, paths, host);
      var rules: seq<Rule> := [];
      for i := 0 to |paths|
        invariant Valid()
        invariant HttpRules(env, cluster, paths[..i], host) == Success(rules)
        invariant services.Keys == old(services.Keys) + ServicesOfPaths(paths[..i])
      {
        RulesSoFar(env, cluster, paths, host, i);
        var rule := CompilePath(paths[i], host);
        if rule.Failure? {
          HttpRulesFail(env, cluster, paths, host, i + 1);
          return Failure(rule.error);
        }
        if !HasName(rules, rule.value.name) { rules := rules + [rule.value]; }
      }
      assert paths[..|paths|] == paths;
      return Success(rules);
    }

    method CompilePath(path: IngressPath, host: string) returns (r: Result<Rule>)
      requires Valid()
      modifies this`services
      ensures Valid()
      ensures r == RuleOf(env, cluster, path, host)
      ensures r.Success? ==> services.Keys == old(services.Keys) + ServicesOf(path.backend)
    {
      var backendSet := ProcessBackendSpec(path.backend);
      if backendSet.Failure? { return Failure(backendSet.error); }
      var condition := RoutingRules.CreateCondition(env.parse, path, host);
      if condition.Failure? { return Failure(condition.error); }
      return Success(Rule(env.ruleName(path), condition.value, backendSet.value));
    }

    /** `getOrCreateSSLConfigDetails`, called for a host with TLS. */
    method GetOrCreateSsl(hosts: map<string, string>, host: string) returns (r: Result<Option<Ssl>>)
      requires Valid() && hosts == HostsWithTls(ing.tls)
      modifies this`tables
      ensures match r
              case Success(ssl) => AddCertificate(cluster, ing, old(tables), host) == Success((ssl, tables))
              case Failure(e) => AddCertificate(cluster, ing, old(tables), host) == Failure(e)
    {
      if host !in hosts { return Success(None); }
      var secret := hosts[host];
      if host == "" || secret == "" { return Failure("empty hostname or secretName"); }
      if secret !in cluster.secrets { return Failure("no certificate"); }
      var bundle := cluster.secrets[secret];
      var name := CertificateName(ing.namespace, secret, bundle);
      if Key(Certificates, name) !in tables {
        tables := tables[Key(Certificates, name) := Certificate(bundle.publicPem, bundle.caPem)];
      }
      return Success(Some(Ssl(name, 1, false, "oci-default-http2-ssl-cipher-suite-v1")));
    }

    /** `getOrCreateHostnameDetails`: gives the host the entry was made for. */
    method GetOrCreateHostname(host: string) returns (owner: string)
      requires Valid()
      modifies this`tables
      ensures tables == AddHostname(env, old(tables), host) && owner == EntryHost(env, tables, host)
    {
      owner := host;
      if host != "" {
        var k := Key(Hostnames, HostnameName(env.gen, host));
        if k !in tables { tables := tables[k := Hostname(host)]; }
        if tables[k].Hostname? { owner := tables[k].hostname; }
      }
    }

    /** One round of the loop over the Ingress rules; `error` holds what it fails with. */
    method ProcessRule(hosts: map<string, string>, rule: IngressRule) returns (error: Option<string>)
      requires Valid() && hosts == HostsWithTls(ing.tls)
      modifies this`services, this`tables
      ensures Valid()
      ensures AddRule(env, cluster, ing, old(tables), rule) == if error.None? then Success(tables) else Failure(error.value)
      ensures error.None? ==> rule.http.Some? && services.Keys == old(services.Keys) + ServicesOfPaths(rule.http.value)
    {
      if rule.http.None? { return Some("nil dereference"); }
      var rules := CompilePaths(rule.http.value, rule.host);
      if rules.Failure? { return Some(rules.error); }
      var ssl := GetOrCreateSsl(hosts, rule.host);
      if ssl.Failure? { return Some(ssl.error); }
      var owner := GetOrCreateHostname(rule.host);
      var listenerName, policyName := ListenerName(env.gen, owner), RoutingPolicyName(env.gen, rule.host);
      if !IsListenerName(listenerName) { return Some("Invalid Listener name."); }
      if !IsPolicyName(policyName) { return Some("Invalid Routing policy name."); }
      MergePolicy(policyName, rules.value);
      tables := tables[Key(Listeners, listenerName) := HostListener(env, rule.host, ssl.value)];
      return None;
    }

    method MergePolicy(name: string, rules: seq<Rule>)
      modifies this`tables
      ensures tables == AddPolicy(old(tables), name, rules)
    {
      var k, all := Key(RoutingPolicies, name), rules;
      if k in tables && tables[k].RoutingPolicy? { all := tables[k].rules + all; }
      tables := tables[k := RoutingPolicy("V1", all)];
    }

    method ProcessRules(hosts: map<string, string>) returns (error: Option<string>)
      requires Valid() && hosts == HostsWithTls(ing.tls) && tables == map[] && services == map[]
      modifies this`services, this`tables
      ensures Valid()
      ensures AddRules(env, cluster, ing, |ing.rules|) == if error.None? then Success(tables) else Failure(error.value)
      ensures error.None? ==> services.Keys == ServicesOfRules(ing.rules)
    {
      hide AddRule;
      for i := 0 to |ing.rules|
        invariant Valid()
        invariant AddRules(env, cluster, ing, i) == Success(tables)
        invariant services.Keys == ServicesOfRules(ing.rules[..i])
      {
        assert ing.rules[..i + 1][..i] == ing.rules[..i];
        ghost var before := tables;
        error := ProcessRule(hosts, ing.rules[i]);
        AddRulesStep(env, cluster, ing, i, before);
        if error.Some? {
          AddRulesFail(env, cluster, ing, i + 1, |ing.rules|);
          return;
        }
      }
      assert ing.rules[..|ing.rules|] == ing.rules;
      return None;
    }

    /** The rule for the default backend goes to the end of every policy, in whatever order the map gives them. */
    method AppendDefaultRule(r: Rule)
      modifies this`tables
      ensures tables == AppendToPolicies(old(tables), r)
    {
      ghost var before := tables;
      var todo := set k | k in tables && tables[k].RoutingPolicy?;
      while todo != {}
        invariant PartlyAppended(before, todo, tables, r)
        decreases |todo|
      {
        var k :| k in todo;
        AppendStep(before, todo, tables, r, k);
        tables := tables[k := RoutingPolicy(tables[k].version, tables[k].rules + [r])];
        todo := todo - {k};
      }
      AllAppended(before, tables, r);
    }

    /** The default backend, or the listener for requests without a known host. */
    method ProcessDefault() returns (error: Option<string>)
      requires Valid()
      modifies this`services, this`tables
      ensures Valid()
      ensures AddDefault(env, cluster, ing, old(tables)) == if error.None? then Success(tables) else Failure(error.value)
      ensures error.None? ==>
        services.Keys == old(services.Keys) + if ing.defaultBackend.Some? then ServicesOf(ing.defaultBackend.value) else {}
    {
      if ing.defaultBackend.None? {
        tables := tables[Key(Listeners, CATCH_ALL) := PlainListener(DUMMY)];
        return None;
      }
      var backendSet := ProcessBackendSpec(ing.defaultBackend.value);
      if backendSet.Failure? { return Some(backendSet.error); }
      tables := tables[Key(Listeners, DEFAULT_BACKEND) := PlainListener(backendSet.value)];
      AppendDefaultRule(DefaultRule(backendSet.value));
      return None;
    }

    /** Everything but the backend sets. */
    method BuildFront() returns (error: Option<string>)
      requires Valid() && tables == map[] && services == map[]
      modifies this`services, this`tables
      ensures Valid()
      ensures Front(env, cluster, ing) == if error.None? then Success(tables) else Failure(error.value)
      ensures error.None? ==> services.Keys == Services(ing)
    {
      var hosts := CollectHosts(ing.tls);
      error := ProcessRules(hosts);
      if error.Some? { return; }
      error := ProcessDefault();
      if error.Some? { return; }
      if hosts != map[] && (ing.forceRedirect == "true" || (ing.forceRedirect == "" && env.redirectByDefault)) {
        tables := tables[Key(RuleSets, REDIRECTION) := RuleSet(["redirect / to https, port 443, code 308"])]
                        [Key(Listeners, REDIRECTOR) := Redirector(ing)];
      }
    }
  }

  lemma AddRulesStep(env: Env, cluster: Cluster, ing: Ingress, i: nat, s: Store)
    requires GoodHash(env.gen) && ServicesFit(cluster) && i < |ing.rules| && AddRules(env, cluster, ing, i) == Success(s)
    ensures AddRules(env, cluster, ing, i + 1) == AddRule(env, cluster, ing, s, ing.rules[i])
  {
  }

  /** The policies outside `todo` have got the rule, nothing else has changed. */
  ghost predicate PartlyAppended(before: Store, todo: set<Key>, now: Store, r: Rule) {
    && todo <= now.Keys && now.Keys == before.Keys
    && (forall k <- todo :: before[k].RoutingPolicy?)
    && forall k <- before ::
         now[k] == if before[k].RoutingPolicy? && k !in todo then RoutingPolicy(before[k].version, before[k].rules + [r]) else before[k]
  }

  lemma AppendStep(before: Store, todo: set<Key>, now: Store, r: Rule, k: Key)
    requires PartlyAppended(before, todo, now, r) && k in todo
    ensures now[k].RoutingPolicy?
    ensures PartlyAppended(before, todo - {k}, now[k := RoutingPolicy(now[k].version, now[k].rules + [r])], r)
  {
  }

  lemma AllAppended(before: Store, now: Store, r: Rule)
    requires PartlyAppended(before, {}, now, r)
    ensures now == AppendToPolicies(before, r)
  {
    assert AppendToPolicies(before, r).Keys == before.Keys;
  }

  // ---------------------------------------------------------------------------------------------
  // Backend sets

  /** `getBackends`. */
  method GetBackends(nodes: seq<Node>, nodePort: int) returns (backends: seq<Backend>)
    ensures backends == Backends(nodes, nodePort)
  {
    backends := [];
    for i := 0 to |nodes|
      invariant backends == Backends(nodes[..i], nodePort)
    {
      assert nodes[..i + 1][..i] == nodes[..i];
      if nodes[i].ip == "" { continue; }
      backends := backends + [Backend(nodes[i].ip, nodePort, 1)];
    }
    assert nodes[..|nodes|] == nodes;
  }

  /** Exactly the nodes with an internal address serve, on the node port and with weight one. */
  lemma {:induction false} BackendsAreNodes(nodes: seq<Node>, nodePort: int, b: Backend)
    ensures b in Backends(nodes, nodePort)
            <==> b.port == nodePort && b.weight == 1 && b.ip != "" && exists node <- nodes :: node.ip == b.ip
  {
    if nodes != [] {
      var init, last := nodes[..|nodes| - 1], nodes[|nodes| - 1];
      BackendsAreNodes(init, nodePort, b);
      assert nodes == init + [last];
    }
  }

  /** `GetBackendSets`. */
  method GetBackendSets(env: Env, cluster: Cluster, service: Service, policy: string) returns (r: Result<Store>)
    requires GoodHash(env.gen) && PortsFit(service.ports)
    ensures r.Success? <==> HealthKnown(service)
    ensures r.Success? && service.ports == [] ==> r.value == map[]
    ensures r.Success? && service.ports != [] ==> r.value == BackendSetsOf(env, cluster, service, policy, |service.ports|)
  {
    var sets: Store := map[];
    for i := 0 to |service.ports|
      invariant i > 0 ==> service.healthChecker.Success?
      invariant sets == if i == 0 then map[] else BackendSetsOf(env, cluster, service, policy, i)
    {
      if service.healthChecker.Failure? { return Failure(service.healthChecker.error); }
      var backends := GetBackends(cluster.nodes, service.ports[i].nodePort);
      sets := sets[Key(BackendSets, SetName(env, service, i)) := BackendSet(policy, backends, Some(service.healthChecker.value))];
    }
    return Success(sets);
  }

  /** The health check annotations are only read for a service with ports. */
  predicate HealthKnown(service: Service) {
    service.ports == [] || service.healthChecker.Success?
  }

  /** What a backend set of a service is: its nodes on the node port of one of its ports. */
  ghost predicate IsSetOf(env: Env, cluster: Cluster, service: Service, policy: string, name: string, r: Resource)
    requires GoodHash(env.gen) && PortsFit(service.ports)
  {
    && service.healthChecker.Success?
    && exists i: nat :: i < |service.ports| && SetName(env, service, i) == name
         && r == BackendSet(policy, Backends(cluster.nodes, service.ports[i].nodePort), Some(service.healthChecker.value))
  }

  ghost predicate IsEarlySetName(env: Env, service: Service, n: nat, k: Key)
    requires GoodHash(env.gen) && PortsFit(service.ports) && n <= |service.ports|
  {
    k.kind == BackendSets && exists i: nat :: i < n && SetName(env, service, i) == k.name
  }

  lemma {:induction false} SetsAt(env: Env, cluster: Cluster, service: Service, policy: string, n: nat, k: Key)
    requires GoodHash(env.gen) && PortsFit(service.ports) && n <= |service.ports| && service.healthChecker.Success?
    ensures var s := BackendSetsOf(env, cluster, service, policy, n);
      (k in s <==> IsEarlySetName(env, service, n, k)) && (k in s ==> IsSetOf(env, cluster, service, policy, k.name, s[k]))
  {
    hide IsEarlySetName, IsSetOf, SetName, Backends;
    if n > 0 {
      SetsAt(env, cluster, service, policy, n - 1, k);
      EarlyStep(env, service, n - 1, k);
      if k == Key(BackendSets, SetName(env, service, n - 1)) {
        LastSet(env, cluster, service, policy, n - 1);
      }
    } else {
      NoEarlyName(env, service, k);
    }
  }

  lemma NoEarlyName(env: Env, service: Service, k: Key)
    requires GoodHash(env.gen) && PortsFit(service.ports)
    ensures !IsEarlySetName(env, service, 0, k)
  {
  }

  lemma EarlyStep(env: Env, service: Service, n: nat, k: Key)
    requires GoodHash(env.gen) && PortsFit(service.ports) && n < |service.ports|
    ensures IsEarlySetName(env, service, n + 1, k)
            <==> IsEarlySetName(env, service, n, k) || k == Key(BackendSets, SetName(env, service, n))
  {
  }

  lemma LastSet(env: Env, cluster: Cluster, service: Service, policy: string, n: nat)
    requires GoodHash(env.gen) && PortsFit(service.ports) && n < |service.ports| && service.healthChecker.Success?
    ensures IsSetOf(env, cluster, service, policy, SetName(env, service, n),
                    BackendSet(policy, Backends(cluster.nodes, service.ports[n].nodePort), Some(service.healthChecker.value)))
  {
  }

  /** The sets that the services in `done` get, and no others. */
  ghost predicate AreSetsFor(env: Env, cluster: Cluster, done: set<string>, policy: string, sets: Store)
    requires GoodHash(env.gen) && ServicesFit(cluster) && done <= cluster.services.Keys
  {
    forall k: Key ::
      && (k in sets <==> IsSetNameFor(env, cluster, done, k))
      && (k in sets ==> IsSetFor(env, cluster, done, policy, k.name, sets[k]))
  }

  ghost predicate IsSetNameFor(env: Env, cluster: Cluster, done: set<string>, k: Key)
    requires GoodHash(env.gen) && ServicesFit(cluster) && done <= cluster.services.Keys
  {
    k.kind == BackendSets && exists svc <- done :: IsSetName(env, cluster.services[svc], k.name)
  }

  ghost predicate IsSetFor(env: Env, cluster: Cluster, done: set<string>, policy: string, name: string, r: Resource)
    requires GoodHash(env.gen) && ServicesFit(cluster) && done <= cluster.services.Keys
  {
    exists svc <- done :: IsSetOf(env, cluster, cluster.services[svc], policy, name, r)
  }

  ghost predicate AreSetsOf(env: Env, cluster: Cluster, service: Service, policy: string, sets: Store)
    requires GoodHash(env.gen) && PortsFit(service.ports)
  {
    forall k: Key ::
      && (k in sets <==> k.kind == BackendSets && IsSetName(env, service, k.name))
      && (k in sets ==> IsSetOf(env, cluster, service, policy, k.name, sets[k]))
  }

  lemma SetsOfService(env: Env, cluster: Cluster, service: Service, policy: string, sets: Store)
    requires GoodHash(env.gen) && PortsFit(service.ports) && HealthKnown(service)
    requires service.ports == [] ==> sets == map[]
    requires service.ports != [] ==> sets == BackendSetsOf(env, cluster, service, policy, |service.ports|)
    ensures AreSetsOf(env, cluster, service, policy, sets)
  {
    forall k: Key
      ensures k in sets <==> k.kind == BackendSets && IsSetName(env, service, k.name)
      ensures k in sets ==> IsSetOf(env, cluster, service, policy, k.name, sets[k])
    {
      if service.ports != [] { SetsAt(env, cluster, service, policy, |service.ports|, k); }
    }
  }

  lemma SetsStep(env: Env, cluster: Cluster, done: set<string>, policy: string, sets: Store, svc: string, more: Store)
    requires GoodHash(env.gen) && ServicesFit(cluster) && done <= cluster.services.Keys && svc in cluster.services
    requires AreSetsFor(env, cluster, done, policy, sets) && AreSetsOf(env, cluster, cluster.services[svc], policy, more)
    ensures AreSetsFor(env, cluster, done + {svc}, policy, sets + more)
  {
    forall k: Key
      ensures k in sets + more <==> IsSetNameFor(env, cluster, done + {svc}, k)
      ensures k in sets + more ==> IsSetFor(env, cluster, done + {svc}, policy, k.name, (sets + more)[k])
    {
      assert IsSetNameFor(env, cluster, done + {svc}, k)
        <==> IsSetNameFor(env, cluster, done, k) || (k.kind == BackendSets && IsSetName(env, cluster.services[svc], k.name));
    }
  }

  lemma MoveName(todo: set<string>, done: set<string>, name: string)
    requires name in todo && done !! todo
    ensures (done + {name}) + (todo - {name}) == done + todo && done + {name} !! todo - {name}
  {
  }

  lemma NoSetsYet(env: Env, cluster: Cluster, policy: string)
    requires GoodHash(env.gen) && ServicesFit(cluster)
    ensures AreSetsFor(env, cluster, {}, policy, map[])
  {
  }

  /** The loop of `setupBackendSetsForSpec`, over the services in any order. */
  method CollectBackendSets(env: Env, cluster: Cluster, services: map<string, Service>, policy: string) returns (r: Result<Store>)
    requires GoodHash(env.gen) && ServicesFit(cluster)
    requires forall name <- services :: name in cluster.services && services[name] == cluster.services[name]
    ensures r.Success? <==> forall name <- services :: HealthKnown(services[name])
    ensures r.Success? ==> AreSetsFor(env, cluster, services.Keys, policy, r.value)
  {
    hide AreSetsFor, AreSetsOf, BackendSetsOf;
    var sets: Store, todo := map[], services.Keys;
    ghost var done := {};
    NoSetsYet(env, cluster, policy);
    while todo != {}
      invariant done + todo == services.Keys && done !! todo
      invariant forall name <- done :: HealthKnown(services[name])
      invariant AreSetsFor(env, cluster, done, policy, sets)
      decreases |todo|
    {
      var name :| name in todo;
      var more := GetBackendSets(env, cluster, services[name], policy);
      if more.Failure? { return Failure(more.error); }
      SetsOfService(env, cluster, services[name], policy, more.value);
      SetsStep(env, cluster, done, policy, sets, name, more.value);
      sets := sets + more.value;
      MoveName(todo, done, name);
      todo, done := todo - {name}, done + {name};
    }
    return Success(sets);
  }

  // ---------------------------------------------------------------------------------------------
  // The whole

  /** When a spec can be built: the checks pass, every rule compiles, and the annotations of Ingress and services are good. */
  ghost predicate Buildable(env: Env, cluster: Cluster, ing: Ingress)
    requires GoodHash(env.gen) && ServicesFit(cluster)
  {
    && ing.opening.None? && ing.closing.None?
    && Front(env, cluster, ing).Success? && ing.policy.Success?
    && forall svc <- Services(ing) | svc in cluster.services :: HealthKnown(cluster.services[svc])
  }

  /** The backend sets of a spec: for each port of a service used, the nodes on its node port; and the empty dummy. */
  ghost predicate SetsAreRight(env: Env, cluster: Cluster, ing: Ingress, spec: Store)
    requires GoodHash(env.gen) && ServicesFit(cluster)
  {
    && ing.policy.Success? && Services(ing) <= cluster.services.Keys
    && forall k <- spec | k.kind == BackendSets ::
         if k.name == DUMMY then spec[k] == DummySet(ing.policy.value)
         else IsSetFor(env, cluster, Services(ing), ing.policy.value, k.name, spec[k])
  }

  lemma SidesOfUnion(front: Store, all: Store)
    requires (forall k <- front :: k.kind != BackendSets) && forall k <- all :: k.kind == BackendSets
    ensures forall k: Key :: At(front + all, k) == if k.kind == BackendSets then At(all, k) else At(front, k)
  {
  }

  /** The backend set table as it should be, the dummy included. */
  ghost predicate AreAllSets(env: Env, cluster: Cluster, ing: Ingress, all: Store)
    requires GoodHash(env.gen) && ServicesFit(cluster) && ing.policy.Success? && Services(ing) <= cluster.services.Keys
  {
    forall k: Key :: IsRightAt(env, cluster, ing, k, At(all, k))
  }

  ghost predicate IsRightAt(env: Env, cluster: Cluster, ing: Ingress, k: Key, r: Option<Resource>)
    requires GoodHash(env.gen) && ServicesFit(cluster) && ing.policy.Success? && Services(ing) <= cluster.services.Keys
  {
    && (r.Some? <==> k.kind == BackendSets && k.name in AllSetNames(env, cluster, ing))
    && (r.Some? ==> r.value.BackendSet?)
    && (r.Some? ==> if k.name == DUMMY then r.value == DummySet(ing.policy.value)
                    else IsSetFor(env, cluster, Services(ing), ing.policy.value, k.name, r.value))
  }

  lemma RightWithDummy(env: Env, cluster: Cluster, ing: Ingress, sets: Store, k: Key)
    requires GoodHash(env.gen) && ServicesFit(cluster) && ing.policy.Success? && Services(ing) <= cluster.services.Keys
    requires k in sets <==> IsSetNameFor(env, cluster, Services(ing), k)
    requires k in sets ==> IsSetFor(env, cluster, Services(ing), ing.policy.value, k.name, sets[k])
    ensures IsRightAt(env, cluster, ing, k, At(sets[Key(BackendSets, DUMMY) := DummySet(ing.policy.value)], k))
  {
  }

  lemma WithDummy(env: Env, cluster: Cluster, ing: Ingress, sets: Store)
    requires GoodHash(env.gen) && ServicesFit(cluster) && ing.policy.Success? && Services(ing) <= cluster.services.Keys
    requires AreSetsFor(env, cluster, Services(ing), ing.policy.value, sets)
    ensures AreAllSets(env, cluster, ing, sets[Key(BackendSets, DUMMY) := DummySet(ing.policy.value)])
  {
    var all := sets[Key(BackendSets, DUMMY) := DummySet(ing.policy.value)];
    forall k: Key ensures IsRightAt(env, cluster, ing, k, At(all, k)) {
      SetsAtKey(env, cluster, Services(ing), ing.policy.value, sets, k);
      RightWithDummy(env, cluster, ing, sets, k);
    }
  }

  lemma SetsAtKey(env: Env, cluster: Cluster, done: set<string>, policy: string, sets: Store, k: Key)
    requires GoodHash(env.gen) && ServicesFit(cluster) && done <= cluster.services.Keys
    requires AreSetsFor(env, cluster, done, policy, sets)
    ensures k in sets <==> IsSetNameFor(env, cluster, done, k)
    ensures k in sets ==> IsSetFor(env, cluster, done, policy, k.name, sets[k])
  {
  }

  /** The front tables and the backend sets together. */
  lemma SpecAssembled(env: Env, cluster: Cluster, ing: Ingress, front: Store, all: Store)
    requires GoodHash(env.gen) && ServicesFit(cluster) && Front(env, cluster, ing) == Success(front)
    requires ing.policy.Success? && Services(ing) <= cluster.services.Keys && AreAllSets(env, cluster, ing, all)
    ensures IsSpec(env, cluster, ing, front + all) && SetsAreRight(env, cluster, ing, front + all)
  {
    NoSetsInFront(env, cluster, ing, front);
    forall k | k in all ensures k.kind == BackendSets { assert IsRightAt(env, cluster, ing, k, At(all, k)); }
    SidesOfUnion(front, all);
    SpecFromSides(env, cluster, ing, front, all, front + all);
  }

  lemma SpecFromSides(env: Env, cluster: Cluster, ing: Ingress, front: Store, all: Store, spec: Store)
    requires GoodHash(env.gen) && ServicesFit(cluster) && Front(env, cluster, ing) == Success(front)
    requires ing.policy.Success? && Services(ing) <= cluster.services.Keys && AreAllSets(env, cluster, ing, all)
    requires forall k: Key :: At(spec, k) == if k.kind == BackendSets then At(all, k) else At(front, k)
    ensures IsSpec(env, cluster, ing, spec) && SetsAreRight(env, cluster, ing, spec)
  {
    forall k: Key | k.kind == BackendSets ensures IsRightAt(env, cluster, ing, k, At(spec, k)) {
      assert IsRightAt(env, cluster, ing, k, At(all, k));
    }
  }

  lemma NoSetsInFront(env: Env, cluster: Cluster, ing: Ingress, front: Store)
    requires GoodHash(env.gen) && ServicesFit(cluster) && Front(env, cluster, ing) == Success(front)
    ensures forall k <- front :: k.kind != BackendSets
  {
    FrontHasNoSets(env, cluster, ing);
  }

  /**
   `NewIngressLBSpec`: it succeeds exactly when the spec is buildable, and then gives the compiled tables
   with the right backend sets, whatever order the maps are walked in.
   */
  method NewIngressLBSpec(env: Env, cluster: Cluster, ing: Ingress) returns (r: Result<Store>)
    requires GoodHash(env.gen) && ServicesFit(cluster)
    ensures r.Success? <==> Buildable(env, cluster, ing)
    ensures r.Success? ==> IsSpec(env, cluster, ing, r.value) && SetsAreRight(env, cluster, ing, r.value)
  {
    if ing.opening.Some? { return Failure(ing.opening.value); }
    var builder := new Builder(env, cluster, ing);
    var error := builder.BuildFront();
    if error.Some? { return Failure(error.value); }
    if ing.closing.Some? { return Failure(ing.closing.value); }
    if ing.policy.Failure? { return Failure(ing.policy.error); }
    var sets := CollectBackendSets(env, cluster, builder.services, ing.policy.value);
    if sets.Failure? { return Failure(sets.error); }
    var all := sets.value[Key(BackendSets, DUMMY) := DummySet(ing.policy.value)];
    r := Success(builder.tables + all);
    WithDummy(env, cluster, ing, sets.value);
    SpecAssembled(env, cluster, ing, builder.tables, all);
  }

  // ---------------------------------------------------------------------------------------------
  // TLS hosts that are rule hosts

  /** Every TLS host is also the host of a rule, and short enough to be its own hostname entry. */
  predicate TlsHostsAreRuleHosts(ing: Ingress) {
    forall host <- HostsWithTls(ing.tls) :: host != "" && |host| <= 240 && exists rule <- ing.rules :: rule.host == host
  }

  /** Such TLS hosts leave no name dangling. */
  lemma TlsHostsSuffice(env: Env, ing: Ingress)
    requires GoodHash(env.gen) && TlsHostsAreRuleHosts(ing)
    ensures TlsHostsListed(env, ing)
  {
    forall host | host in HostsWithTls(ing.tls) ensures HostEntry(env, ing, |ing.rules|, host) {
      var i :| 0 <= i < |ing.rules| && ing.rules[i].host == host;
      assert HostnameName(env.gen, ing.rules[i].host) == host;
    }
  }
}
