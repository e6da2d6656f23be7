/** `UpdateOrCreateIngress` of src/manager/manager.go: from an Ingress to a load balancer that serves it. */
module IngressManager {
  import opened Wrappers
  import opened Names
  import opened Tables
  import opened Differences
  import opened Plans
  import opened Runs
  import opened Progress
  import opened CloudApi
  import Manager
  import RoutingRules
  import Conditions
  import opened SpecCompiler
  import opened SpecClosure
  import SpecMeaning
  import opened SpecBuilder
  import opened FrontTables
  import opened Serving
  import opened Comparisons
  import opened Compiling

  // ---------------------------------------------------------------------------------------------
  // From the front tables to the spec

  /** The backend sets add no listeners, so plain lists and apart names carry over from the front tables. */
  lemma SpecLikeFront(env: Env, cluster: Cluster, ing: Ingress, spec: Store)
    requires GoodHash(env.gen) && ServicesFit(cluster) && IsSpec(env, cluster, ing, spec)
    requires PlainListeners(Front(env, cluster, ing).value) && WellNamed(Front(env, cluster, ing).value)
    ensures PlainListeners(spec) && WellNamed(spec)
  {
    var front := Front(env, cluster, ing).value;
    forall k | k in spec ensures k.kind == BackendSets || (k in front && front[k] == spec[k]) {
      assert k.kind != BackendSets ==> At(spec, k) == At(front, k);
    }
    forall a, b | a in spec && b in spec && Slot(a) == Slot(b) ensures a == b {
      assert a.kind == b.kind;
    }
  }

  lemma InSpec(env: Env, cluster: Cluster, ing: Ingress, spec: Store, k: Key)
    requires GoodHash(env.gen) && ServicesFit(cluster) && IsSpec(env, cluster, ing, spec) && k.kind != BackendSets
    ensures At(spec, k) == At(Front(env, cluster, ing).value, k)
  {
  }

  // ---------------------------------------------------------------------------------------------
  // The nodes behind a declared backend

  /** Services with such ports, whose backend sets are told apart by their names. */
  ghost predicate ServicesTold(env: Env, cluster: Cluster, ing: Ingress)
    requires GoodHash(env.gen) && ServicesFit(cluster)
  {
    && (forall svc <- Services(ing) | svc in cluster.services :: '_' !in svc && PortsTold(cluster.services[svc].ports))
    && (forall a, b, name | a in Services(ing) && b in Services(ing) && a in cluster.services && b in cluster.services
          && IsSetName(env, cluster.services[a], name) && IsSetName(env, cluster.services[b], name) :: a == b)
  }

  /** Two ports of a service whose sets share a name are one port. */
  lemma SamePort(env: Env, service: Service, i: nat, j: nat)
    requires GoodHash(env.gen) && PortsFit(service.ports) && PortsTold(service.ports) && '_' !in service.name
    requires i < |service.ports| && j < |service.ports| && SetName(env, service, i) == SetName(env, service, j)
    ensures i == j
  {
    var p, q := service.ports[i], service.ports[j];
    ProtocolStart(p.protocol);
    ProtocolStart(q.protocol);
    BackendSetNamesApart(env.gen, service.name, p.protocol, p.port, q.protocol, q.port);
  }

  lemma ProtocolStart(protocol: string)
    requires protocol == "TCP" || protocol == "UDP" || protocol == "SCTP"
    ensures protocol != "" && protocol[0] != '_'
    ensures protocol[0] == if protocol == "TCP" then 'T' else if protocol == "UDP" then 'U' else 'S'
  {
  }

  /** The port of a service that a backend means, and the name of its set. */
  lemma ResolvedPort(env: Env, cluster: Cluster, backend: RoutingRules.Backend) returns (i: nat)
    requires GoodHash(env.gen) && ServicesFit(cluster) && Resolve(env, cluster, backend).Success?
    requires backend.ServiceBackend? && backend.service in cluster.services && PortsTold(cluster.services[backend.service].ports)
    ensures var service := cluster.services[backend.service];
      && i < |service.ports| && IsPortOf(service.ports, backend, i) && SetName(env, service, i) == Resolve(env, cluster, backend).value
  {
    ResolvesToPort(env, cluster, backend);
    i := ResolvedHasPort(env, cluster, backend);
  }

  lemma NotDummy(env: Env, service: Service, i: nat)
    requires GoodHash(env.gen) && PortsFit(service.ports) && i < |service.ports|
    ensures SetName(env, service, i) != DUMMY
  {
    var p := service.ports[i];
    var stem, digits := BackendSetNameFits(env.gen, service.name, p.protocol, p.port);
  }

  lemma NodesServed(nodes: seq<Node>, nodePort: int)
    ensures ServesNodes(nodes, nodePort, Backends(nodes, nodePort))
  {
    var backends := Backends(nodes, nodePort);
    forall ip, port
      ensures HasAddress(backends, ip, port) <==> port == nodePort && ip != "" && exists node <- nodes :: node.ip == ip
    {
      BackendsAreNodes(nodes, nodePort, Backend(ip, port, 1));
      if HasAddress(backends, ip, port) {
        var b :| b in backends && b.ip == ip && b.port == port;
        BackendsAreNodes(nodes, nodePort, b);
      }
    }
  }

  /** The set made for the port that a backend means. */
  lemma MadeSet(cluster: Cluster, ing: Ingress, backend: RoutingRules.Backend, j: nat)
    requires backend.ServiceBackend? && backend.service in cluster.services && j < |cluster.services[backend.service].ports|
    requires IsPortOf(cluster.services[backend.service].ports, backend, j)
    requires ing.policy.Success? && cluster.services[backend.service].healthChecker.Success?
    ensures var service := cluster.services[backend.service];
      IsSetBehind(cluster, ing, backend, BackendSet(ing.policy.value, Backends(cluster.nodes, service.ports[j].nodePort),
                                                   Some(service.healthChecker.value)))
  {
    hide IsPortOf, ServesNodes, Backends;
    NodesServed(cluster.nodes, cluster.services[backend.service].ports[j].nodePort);
  }

  /** The set a backend resolves to has the nodes on the node port of that very service and port. */
  lemma SetOfBackend(env: Env, cluster: Cluster, ing: Ingress, spec: Store, backend: RoutingRules.Backend)
    requires GoodHash(env.gen) && ServicesFit(cluster) && ServicesTold(env, cluster, ing)
    requires IsSpec(env, cluster, ing, spec) && SetsAreRight(env, cluster, ing, spec)
    requires Resolve(env, cluster, backend).Success? && ServicesOf(backend) <= Services(ing)
    ensures var k := Key(BackendSets, Resolve(env, cluster, backend).value);
      && k in spec && IsSetBehind(cluster, ing, backend, spec[k])
      && spec[k].healthChecker == Some(cluster.services[backend.service].healthChecker.value)
  {
    var name := Resolve(env, cluster, backend).value;
    var k := Key(BackendSets, name);
    ResolvedIsSet(env, cluster, backend);
    ResolvedName(env, cluster, ing, backend);
    assert backend.service in Services(ing) && k in spec;
    var j := ResolvedPort(env, cluster, backend);
    NotDummy(env, cluster.services[backend.service], j);
    assert IsSetFor(env, cluster, Services(ing), ing.policy.value, name, spec[k]);
    var svc :| svc in Services(ing) && IsSetOf(env, cluster, cluster.services[svc], ing.policy.value, name, spec[k]);
    var i: nat :| i < |cluster.services[svc].ports| && SetName(env, cluster.services[svc], i) == name
      && spec[k] == BackendSet(ing.policy.value, Backends(cluster.nodes, cluster.services[svc].ports[i].nodePort),
                               Some(cluster.services[svc].healthChecker.value));
    assert IsSetName(env, cluster.services[svc], name) && IsSetName(env, cluster.services[backend.service], name);
    assert svc == backend.service;
    SamePort(env, cluster.services[svc], i, j);
    hide IsSpec, SetsAreRight, ServicesTold, IsSetFor, IsSetOf, IsSetName, SetName, Resolve;
    MadeSet(cluster, ing, backend, j);
  }

  lemma {:induction false} PathBackendUsed(env: Env, paths: seq<RoutingRules.IngressPath>, host: string, req: Conditions.Request, custom: SpecMeaning.Custom)
    ensures var b := SpecMeaning.FirstPath(env, paths, host, req, custom); b.Some? ==> ServicesOf(b.value) <= ServicesOfPaths(paths)
  {
    if paths != [] { PathBackendUsed(env, paths[..|paths| - 1], host, req, custom); }
  }

  lemma {:induction false} RuleBackendUsed(env: Env, rules: seq<IngressRule>, host: string, req: Conditions.Request, custom: SpecMeaning.Custom)
    ensures var b := SpecMeaning.FirstDeclared(env, rules, host, req, custom); b.Some? ==> ServicesOf(b.value) <= ServicesOfRules(rules)
  {
    if rules != [] {
      RuleBackendUsed(env, rules[..|rules| - 1], host, req, custom);
      var last := rules[|rules| - 1];
      if last.http.Some? { PathBackendUsed(env, last.http.value, host, req, custom); }
    }
  }

  /** Whatever is declared for a request is a backend whose service is used. */
  lemma DeclaredUsed(env: Env, ing: Ingress, host: string, req: Conditions.Request, custom: SpecMeaning.Custom)
    ensures var b := SpecMeaning.Declared(env, ing, host, req, custom); b.Some? ==> ServicesOf(b.value) <= Services(ing)
  {
    RuleBackendUsed(env, ing.rules, host, req, custom);
  }

  // ---------------------------------------------------------------------------------------------
  // A load balancer that serves an Ingress

  /** Rule sets can be left behind on a listener that an existing load balancer did not have. */
  ghost predicate MayLackRuleSets(found: Option<Store>, d: Key, wanted: Resource) {
    HasRuleSets(wanted) && found.Some? && !Holds(found.value, Slot(d))
  }

  /** The wanted resource is there, up to what the comparisons overlook, and up to rule sets where they can be left behind. */
  ghost predicate Settled(found: Option<Store>, t: Store, d: Key, wanted: Resource) {
    exists k <- t :: Slot(k) == Slot(d)
      && (MayLackRuleSets(found, d, wanted) || !Changed(t[k], wanted)) && !Changed(Strip(t[k]), Strip(wanted))
  }

  /** A hostname entry holds the wanted host unless the load balancer was found with another one under that name. */
  ghost predicate EntrySettled(found: Option<Store>, t: Store, d: Key, wanted: Resource) {
    d in t && (t[d] == wanted <==> EntryFits(found, d, wanted))
  }

  predicate EntryFits(found: Option<Store>, d: Key, wanted: Resource) {
    found.Some? && d in found.value ==> found.value[d] == wanted
  }

  ghost predicate AllSettled(spec: Store, found: Option<Store>, t: Store) {
    && (forall d <- spec :: Settled(found, t, d, spec[d]))
    && (forall d <- spec | d.kind == Hostnames :: EntrySettled(found, t, d, spec[d]))
  }

  /** A live listener of the host, and with it its hostname entry and certificate. */
  ghost predicate HostIsUp(env: Env, cluster: Cluster, ing: Ingress, host: string, found: Option<Store>, t: Store, k: Key)
    requires GoodHash(env.gen)
  {
    && k in t && Slot(k) == Slot(Key(Listeners, ListenerName(env.gen, host)))
    && IsListenerFor(env, cluster, ing, host, t[k])
    && (host != "" ==> EntrySettled(found, t, Key(Hostnames, HostnameName(env.gen, host)), Hostname(host)))
    && (HasTls(ing.tls, host) ==> HasCertificateFor(cluster, ing, host, t))
  }

  /** The backend set of the name has the nodes behind a declared backend. */
  ghost predicate Delivers(cluster: Cluster, ing: Ingress, t: Store, backend: RoutingRules.Backend, name: string) {
    Key(BackendSets, name) in t && IsSetBehind(cluster, ing, backend, t[Key(BackendSets, name)])
  }

  /** What a policy sends the request to has the nodes behind the backend declared for it; without one it sends it nowhere. */
  ghost predicate Routes(env: Env, cluster: Cluster, ing: Ingress, host: string, policy: string, t: Store,
                         req: Conditions.Request, custom: SpecMeaning.Custom)
  {
    var k := Key(RoutingPolicies, policy);
    var declared := SpecMeaning.Declared(env, ing, host, req, custom);
    && k in t && t[k].RoutingPolicy?
    && var sent := SpecMeaning.FirstMatch(t[k].rules, req, custom);
       if declared.None? then sent.None? else sent.Some? && Delivers(cluster, ing, t, declared.value, sent.value)
  }

  /** The host is served: by the policy its own live listener names, for every request. */
  ghost predicate HostIsServed(env: Env, cluster: Cluster, ing: Ingress, host: string, found: Option<Store>, t: Store,
                               custom: SpecMeaning.Custom)
    requires GoodHash(env.gen)
  {
    exists k :: HostIsUp(env, cluster, ing, host, found, t, k) && forall req :: Routes(env, cluster, ing, host, t[k].routingPolicy, t, req, custom)
  }

  /** A live listener for requests to no known host, with the nodes of the default backend if there is one, else with none. */
  ghost predicate OpenIsUp(cluster: Cluster, ing: Ingress, t: Store, k: Key) {
    && k in t && Slot(k) == Slot(Key(Listeners, if ing.defaultBackend.Some? then "DefaultBackend-http" else "Sans-VirtualHost-HTTP"))
    && IsOpenListener(t[k])
    && match ing.defaultBackend
       case None => t[k].defaultBackendSet == "dummy"
       case Some(backend) => Delivers(cluster, ing, t, backend, t[k].defaultBackendSet)
  }

  /** A live redirecting listener; its rule set may be missing if an existing load balancer did not have the listener. */
  ghost predicate RedirectorIsUp(ing: Ingress, found: Option<Store>, t: Store, k: Key) {
    var slot := Slot(Key(Listeners, "http-to-https-redirector"));
    && k in t && Slot(k) == slot && IsRedirector(ing, t[k])
    && (found.None? || Holds(found.value, slot) ==> t[k].ruleSets == ["https_redirection"])
    && At(t, Key(RuleSets, "https_redirection")) == Some(RuleSet(["redirect / to https, port 443, code 308"]))
  }

  ghost predicate OthersAreUp(env: Env, cluster: Cluster, ing: Ingress, found: Option<Store>, t: Store) {
    && (exists k :: OpenIsUp(cluster, ing, t, k))
    && (WantsRedirection(env, ing) ==> exists k :: RedirectorIsUp(ing, found, t, k))
    && ing.policy.Success? && Key(BackendSets, "dummy") in t && IsEmptySet(ing.policy.value, t[Key(BackendSets, "dummy")])
  }

  /**
   The load balancer, found as it was, serves the Ingress: every host, every request, and the requests to other hosts.
   What was found matters in two places, hostname entries and rule sets.
   */
  ghost predicate Serves(env: Env, cluster: Cluster, ing: Ingress, found: Option<Store>, t: Store, custom: SpecMeaning.Custom)
    requires GoodHash(env.gen)
  {
    && (forall rule <- ing.rules :: HostIsServed(env, cluster, ing, rule.host, found, t, custom))
    && OthersAreUp(env, cluster, ing, found, t)
  }

  /** The names made for the Ingress are told apart, by the hashes and by what sanitizing keeps. */
  ghost predicate NamesApart(env: Env, cluster: Cluster, ing: Ingress)
    requires GoodHash(env.gen) && ServicesFit(cluster)
  {
    && SpecMeaning.AllRuleNamesApart(env, ing.rules) && EntriesApart(env, ing.rules)
    && (forall rule <- ing.rules :: SpecMeaning.PolicyNamesApart(env, ing.rules, rule.host) && ListenerNameApart(env, ing, rule.host))
    && ListenersApart(env, ing) && PlainSecrets(ing) && ServicesTold(env, cluster, ing)
  }

  lemma SettledInPlace(found: Option<Store>, t: Store, d: Key, wanted: Resource)
    requires Settled(found, t, d, wanted) && d.kind != Listeners && !wanted.Listener?
    ensures d in t && !Changed(t[d], wanted)
  {
  }

  lemma WantedSettled(spec: Store, found: Option<Store>, t: Store, d: Key, wanted: Resource)
    requires AllSettled(spec, found, t) && At(spec, d) == Some(wanted)
    ensures Settled(found, t, d, wanted)
    ensures d.kind == Hostnames ==> EntrySettled(found, t, d, wanted)
  {
  }

  lemma HostEntrySettled(env: Env, cluster: Cluster, ing: Ingress, spec: Store, found: Option<Store>, t: Store, rule: IngressRule)
    requires GoodHash(env.gen) && ServicesFit(cluster) && IsSpec(env, cluster, ing, spec) && AllSettled(spec, found, t)
    requires rule in ing.rules && rule.host != "" && EntriesApart(env, ing.rules)
    ensures EntrySettled(found, t, Key(Hostnames, HostnameName(env.gen, rule.host)), Hostname(rule.host))
  {
    hide Front;
    var d := Key(Hostnames, HostnameName(env.gen, rule.host));
    FrontEntry(env, cluster, ing, rule);
    InSpec(env, cluster, ing, spec, d);
    WantedSettled(spec, found, t, d, Hostname(rule.host));
  }

  /** Spec and live tables fit together: settled, typed, and with plain lists on both sides. */
  ghost predicate Reached(spec: Store, found: Option<Store>, t: Store) {
    AllSettled(spec, found, t) && Typed(spec) && PlainListeners(spec) && PlainListeners(t)
  }

  /** A live listener without difference from a wanted one that has no rule sets. */
  lemma ListenerSettled(spec: Store, found: Option<Store>, t: Store, d: Key) returns (k: Key)
    requires Reached(spec, found, t) && d in spec && d.kind == Listeners && spec[d].ruleSets == []
    ensures k in t && Slot(k) == Slot(d) && !Changed(t[k], spec[d]) && PlainLists(t[k]) && PlainLists(spec[d])
  {
    hide Changed, PlainLists;
    assert Settled(found, t, d, spec[d]);
    k :| k in t && Slot(k) == Slot(d)
      && (MayLackRuleSets(found, d, spec[d]) || !Changed(t[k], spec[d])) && !Changed(Strip(t[k]), Strip(spec[d]));
    assert !HasRuleSets(spec[d]);
  }

  /** A resource that is no listener is there as wanted. */
  lemma ResourceSettled(spec: Store, found: Option<Store>, t: Store, d: Key)
    requires Reached(spec, found, t) && d in spec && d.kind != Listeners
    ensures d in t && !Changed(t[d], spec[d])
    ensures spec[d].RoutingPolicy? || spec[d].RuleSet? || spec[d].Certificate? ==> t[d] == spec[d]
  {
    assert Settled(found, t, d, spec[d]) && spec[d].Kind() == d.kind;
    SettledInPlace(found, t, d, spec[d]);
    OthersSame(t[d], spec[d]);
  }

  lemma OthersSame(actual: Resource, desired: Resource)
    requires !Changed(actual, desired)
    ensures desired.RoutingPolicy? || desired.RuleSet? || desired.Certificate? ==> actual == desired
  {
  }

  lemma CertificateSettled(cluster: Cluster, ing: Ingress, front: Store, spec: Store, found: Option<Store>, t: Store, host: string)
    requires Reached(spec, found, t) && HasCertificateFor(cluster, ing, host, front)
    requires forall k: Key | k.kind == Certificates :: At(spec, k) == At(front, k)
    ensures HasCertificateFor(cluster, ing, host, t)
  {
    hide Reached, IsSecretOf;
    var secret :| secret in cluster.secrets && IsSecretOf(ing.tls, host, secret)
      && At(front, Key(Certificates, ing.namespace + "_" + secret + "_" + cluster.secrets[secret].id))
         == Some(Certificate(cluster.secrets[secret].publicPem, cluster.secrets[secret].caPem));
    var d := Key(Certificates, ing.namespace + "_" + secret + "_" + cluster.secrets[secret].id);
    assert At(spec, d) == At(front, d);
    ResourceSettled(spec, found, t, d);
  }

  lemma HostSettled(env: Env, cluster: Cluster, ing: Ingress, spec: Store, found: Option<Store>, t: Store, rule: IngressRule) returns (k: Key)
    requires GoodHash(env.gen) && ServicesFit(cluster) && IsSpec(env, cluster, ing, spec) && NamesApart(env, cluster, ing)
    requires rule in ing.rules && Reached(spec, found, t)
    ensures HostIsUp(env, cluster, ing, rule.host, found, t, k)
  {
    var d := Key(Listeners, ListenerName(env.gen, rule.host));
    FrontListener(env, cluster, ing, rule);
    InSpec(env, cluster, ing, spec, d);
    assert IsListenerFor(env, cluster, ing, rule.host, spec[d]);
    hide Front, AllSettled, EntrySettled, HostListener, SslFor, CertificateOf, ListenerName, HostnameName, IsListenerFor, HasCertificateFor;
    k := HostListenerSettled(env, cluster, ing, spec, found, t, rule.host, d);
    if rule.host != "" { HostEntrySettled(env, cluster, ing, spec, found, t, rule); }
    LastEntryWins(ing.tls, rule.host);
    if rule.host in HostsWithTls(ing.tls) {
      PlainSecretsApart(cluster, ing);
      FrontCertificate(env, cluster, ing, rule);
      forall c: Key | c.kind == Certificates ensures At(spec, c) == At(Front(env, cluster, ing).value, c) {
        InSpec(env, cluster, ing, spec, c);
      }
      CertificateSettled(cluster, ing, Front(env, cluster, ing).value, spec, found, t, rule.host);
    }
  }

  lemma HostListenerSettled(env: Env, cluster: Cluster, ing: Ingress, spec: Store, found: Option<Store>, t: Store, host: string, d: Key)
    returns (k: Key)
    requires GoodHash(env.gen) && Reached(spec, found, t)
    requires d in spec && d.kind == Listeners && IsListenerFor(env, cluster, ing, host, spec[d])
    ensures k in t && Slot(k) == Slot(d) && IsListenerFor(env, cluster, ing, host, t[k])
  {
    hide Reached, Changed;
    assert spec[d].ruleSets == [];
    k := ListenerSettled(spec, found, t, d);
    TakenForListener(env, cluster, ing, host, spec[d], t[k]);
  }

  lemma DeliverySettled(env: Env, cluster: Cluster, ing: Ingress, spec: Store, found: Option<Store>, t: Store, backend: RoutingRules.Backend)
    requires GoodHash(env.gen) && ServicesFit(cluster) && ServicesTold(env, cluster, ing)
    requires IsSpec(env, cluster, ing, spec) && SetsAreRight(env, cluster, ing, spec) && Reached(spec, found, t)
    requires Resolve(env, cluster, backend).Success? && ServicesOf(backend) <= Services(ing)
    ensures Delivers(cluster, ing, t, backend, Resolve(env, cluster, backend).value)
  {
    hide IsSpec, SetsAreRight, ServicesTold, Resolve, Reached, Changed;
    var d := Key(BackendSets, Resolve(env, cluster, backend).value);
    SetOfBackend(env, cluster, ing, spec, backend);
    ResourceSettled(spec, found, t, d);
    TakenForSet(cluster, ing, backend, spec[d], t[d]);
  }

  lemma RouteSettled(env: Env, cluster: Cluster, ing: Ingress, spec: Store, found: Option<Store>, t: Store, rule: IngressRule,
                     req: Conditions.Request, custom: SpecMeaning.Custom)
    requires GoodHash(env.gen) && ServicesFit(cluster) && IsSpec(env, cluster, ing, spec) && SetsAreRight(env, cluster, ing, spec)
    requires rule in ing.rules && NamesApart(env, cluster, ing) && Reached(spec, found, t)
    ensures Routes(env, cluster, ing, rule.host, RoutingPolicyName(env.gen, rule.host), t, req, custom)
  {
    hide SetsAreRight, ServicesTold, Resolve, Reached, ListenersApart, SpecMeaning.Declared, SpecMeaning.FirstMatch;
    var d := Key(RoutingPolicies, RoutingPolicyName(env.gen, rule.host));
    var declared := SpecMeaning.Declared(env, ing, rule.host, req, custom);
    SpecMeaning.RoutingPreserved(env, cluster, ing, spec, rule, req, custom);
    ResourceSettled(spec, found, t, d);
    DeclaredUsed(env, ing, rule.host, req, custom);
    if declared.Some? { DeliverySettled(env, cluster, ing, spec, found, t, declared.value); }
  }

  lemma OpenSettled(env: Env, cluster: Cluster, ing: Ingress, spec: Store, found: Option<Store>, t: Store) returns (k: Key)
    requires GoodHash(env.gen) && ServicesFit(cluster) && IsSpec(env, cluster, ing, spec) && SetsAreRight(env, cluster, ing, spec)
    requires NamesApart(env, cluster, ing) && Reached(spec, found, t)
    ensures OpenIsUp(cluster, ing, t, k)
  {
    hide Front, Resolve, OpenListener, OpenListenerName, Redirector, Redirects, ServicesTold, ListenersApart, IsRedirector,
      WantsRedirection, Reached, Changed, Delivers;
    var d := Key(Listeners, if ing.defaultBackend.Some? then "DefaultBackend-http" else "Sans-VirtualHost-HTTP");
    FrontOpenListeners(env, cluster, ing);
    InSpec(env, cluster, ing, spec, d);
    SpecMeaning.FrontResolves(env, cluster, ing);
    k := ListenerSettled(spec, found, t, d);
    TakenForOpen(spec[d], t[k]);
    if ing.defaultBackend.Some? { DeliverySettled(env, cluster, ing, spec, found, t, ing.defaultBackend.value); }
  }

  lemma RedirectorSettled(env: Env, cluster: Cluster, ing: Ingress, spec: Store, found: Option<Store>, t: Store) returns (k: Key)
    requires GoodHash(env.gen) && ServicesFit(cluster) && IsSpec(env, cluster, ing, spec)
    requires NamesApart(env, cluster, ing) && Reached(spec, found, t) && WantsRedirection(env, ing)
    ensures RedirectorIsUp(ing, found, t, k)
  {
    hide Front, Resolve, OpenListener, OpenListenerName, Redirector, Redirects, ServicesTold, ListenersApart, IsOpenListener,
      WantsRedirection, IsRedirector;
    var d, rules := Key(Listeners, "http-to-https-redirector"), Key(RuleSets, "https_redirection");
    FrontOpenListeners(env, cluster, ing);
    FrontRuleSet(env, cluster, ing);
    InSpec(env, cluster, ing, spec, d);
    InSpec(env, cluster, ing, spec, rules);
    hide IsSpec, NamesApart;
    ResourceSettled(spec, found, t, rules);
    k := RedirectingListenerSettled(ing, spec, found, t, d);
  }

  lemma RedirectingListenerSettled(ing: Ingress, spec: Store, found: Option<Store>, t: Store, d: Key) returns (k: Key)
    requires Reached(spec, found, t) && d in spec && d.kind == Listeners
    requires IsRedirector(ing, spec[d]) && spec[d].ruleSets == ["https_redirection"]
    ensures k in t && Slot(k) == Slot(d) && IsRedirector(ing, t[k])
    ensures found.None? || Holds(found.value, Slot(d)) ==> t[k].ruleSets == ["https_redirection"]
  {
    hide Changed, Strip, HasRuleSets, Holds, Slot, HasTls;
    assert Settled(found, t, d, spec[d]);
    k :| k in t && Slot(k) == Slot(d)
      && (MayLackRuleSets(found, d, spec[d]) || !Changed(t[k], spec[d])) && !Changed(Strip(t[k]), Strip(spec[d]));
    TakenForRedirector(ing, spec[d], t[k]);
    if found.None? || Holds(found.value, Slot(d)) {
      ListenersAgree(t[k], spec[d]);
    }
  }

  lemma DummySettled(env: Env, cluster: Cluster, ing: Ingress, spec: Store, found: Option<Store>, t: Store)
    requires GoodHash(env.gen) && ServicesFit(cluster) && IsSpec(env, cluster, ing, spec) && SetsAreRight(env, cluster, ing, spec)
    requires Reached(spec, found, t)
    ensures ing.policy.Success? && Key(BackendSets, "dummy") in t && IsEmptySet(ing.policy.value, t[Key(BackendSets, "dummy")])
  {
    hide Front, Reached, Changed;
    var d := Key(BackendSets, DUMMY);
    assert d in spec && spec[d] == DummySet(ing.policy.value);
    ResourceSettled(spec, found, t, d);
    TakenForEmpty(ing.policy.value, spec[d], t[d]);
  }

  /** Settling every wanted resource is enough to serve the Ingress. */
  lemma SettledServes(env: Env, cluster: Cluster, ing: Ingress, spec: Store, found: Option<Store>, t: Store, custom: SpecMeaning.Custom)
    requires GoodHash(env.gen) && ServicesFit(cluster) && NamesApart(env, cluster, ing)
    requires IsSpec(env, cluster, ing, spec) && SetsAreRight(env, cluster, ing, spec) && Reached(spec, found, t)
    ensures Serves(env, cluster, ing, found, t, custom)
  {
    hide IsSpec, SetsAreRight, NamesApart, Reached, Routes, OpenIsUp, RedirectorIsUp, WantsRedirection;
    forall rule | rule in ing.rules ensures HostIsServed(env, cluster, ing, rule.host, found, t, custom) {
      HostServed(env, cluster, ing, spec, found, t, rule, custom);
    }
    var open_ := OpenSettled(env, cluster, ing, spec, found, t);
    if WantsRedirection(env, ing) { var redirector := RedirectorSettled(env, cluster, ing, spec, found, t); }
    DummySettled(env, cluster, ing, spec, found, t);
  }

  lemma HostServed(env: Env, cluster: Cluster, ing: Ingress, spec: Store, found: Option<Store>, t: Store, rule: IngressRule,
                   custom: SpecMeaning.Custom)
    requires GoodHash(env.gen) && ServicesFit(cluster) && NamesApart(env, cluster, ing) && rule in ing.rules
    requires IsSpec(env, cluster, ing, spec) && SetsAreRight(env, cluster, ing, spec) && Reached(spec, found, t)
    ensures HostIsServed(env, cluster, ing, rule.host, found, t, custom)
  {
    hide IsSpec, SetsAreRight, NamesApart, Reached, Routes, EntrySettled, HasCertificateFor, RoutingPolicyName, ListenerName, IsSslFor;
    var k := HostSettled(env, cluster, ing, spec, found, t, rule);
    assert t[k].routingPolicy == RoutingPolicyName(env.gen, rule.host);
    forall req ensures Routes(env, cluster, ing, rule.host, t[k].routingPolicy, t, req, custom) {
      RouteSettled(env, cluster, ing, spec, found, t, rule, req, custom);
    }
  }

  lemma NoDifferenceSettled(spec: Store, found: Option<Store>, t: Store, d: Key)
    requires d in spec && NoDifference(spec, t, d)
    ensures Settled(found, t, d, spec[d])
  {
    hide Changed, Strip, HasRuleSets;
    var k :| k in t && Slot(k) == Slot(d) && !Changed(t[k], spec[d]);
    StripKeepsAgreement(t[k], spec[d]);
  }

  lemma AgreementSettled(spec: Store, before: Store, lb: Store, t: Store, d: Key)
    requires d in spec && Agrees(spec, before, t, d) && (Holds(lb, Slot(d)) ==> NoDifference(spec, t, d))
    ensures Settled(Some(lb), t, d, spec[d])
  {
    hide Changed, Strip, HasRuleSets;
    if Holds(lb, Slot(d)) { NoDifferenceSettled(spec, Some(lb), t, d); }
  }

  lemma ReconciliationSettles(server: Server, spec: Store, lb: Store, r: Run, t: Store)
    requires Manager.Reconciled(server, spec, lb, r, t)
    ensures AllSettled(spec, Some(lb), t)
  {
    hide Settled, Agrees, NoDifference, Changed, HasRuleSets, Strip, Target, Slot, Holds;
    forall d | d in spec ensures Settled(Some(lb), t, d, spec[d]) {
      AgreementSettled(spec, r.Refreshed(server, lb), lb, t, d);
    }
    forall d | d in spec && d.kind == Hostnames ensures EntrySettled(Some(lb), t, d, spec[d]) {
      assert At(t, d) == Some(if d in lb then lb[d] else spec[d]);
    }
  }

  lemma NoDifferenceSettles(spec: Store, t: Store)
    requires t.Keys == spec.Keys && forall d <- spec :: !Changed(t[d], spec[d])
    requires forall d <- spec | d.kind == Hostnames :: t[d] == spec[d]
    ensures AllSettled(spec, None, t)
  {
    hide Settled, Changed, HasRuleSets, Strip, Slot;
    forall d | d in spec ensures Settled(None, t, d, spec[d]) {
      assert d in t && Slot(d) == Slot(d);
      NoDifferenceSettled(spec, None, t, d);
    }
  }

  /** What is asked of the load balancer found: names apart, no foreign types, no certificate with other contents. */
  ghost predicate Fits(cluster: Cluster, ing: Ingress, lb: Store) {
    WellNamed(lb) && Typed(lb) && PlainListeners(lb) && CertificatesFit(cluster, ing, lb)
  }

  /** The panic on certificates, as a condition on the Ingress and the load balancer found. */
  lemma ClashBySpec(env: Env, cluster: Cluster, ing: Ingress, spec: Store, lb: Store)
    requires GoodHash(env.gen) && ServicesFit(cluster) && IsSpec(env, cluster, ing, spec) && CertificatesApart(cluster, ing)
    ensures Manager.CertificateClash(spec, lb) <==> !CertificatesFit(cluster, ing, lb)
  {
    hide Front, SslFor, CertificateOf;
    if Manager.CertificateClash(spec, lb) {
      var k :| k in lb && k in spec && k.kind == Certificates && Changed(lb[k], spec[k]);
      InSpec(env, cluster, ing, spec, k);
      var rule := FrontCertificateAt(env, cluster, ing, k);
      IsACertificate(cluster, ing, rule.host);
      assert !CertificateFits(cluster, ing, rule.host, lb);
    }
    if !CertificatesFit(cluster, ing, lb) {
      var rule :| rule in ing.rules && !CertificateFits(cluster, ing, rule.host, lb);
      var k := Key(Certificates, SslFor(cluster, ing, rule.host).value.certificateName);
      SslOfTlsHost(cluster, ing, rule.host);
      FrontCertificate(env, cluster, ing, rule);
      InSpec(env, cluster, ing, spec, k);
      IsACertificate(cluster, ing, rule.host);
      assert Changed(lb[k], spec[k]);
    }
  }

  /** A policy the Ingress has no host for names a backend set the Ingress has no service for, and the API minds. */
  ghost predicate StaleInTheWay(env: Env, cluster: Cluster, ing: Ingress, server: Server, lb: Store, p: Key, b: Key)
    requires GoodHash(env.gen) && ServicesFit(cluster)
  {
    && server.guardsPolicies
    && p in lb && p.kind == RoutingPolicies && !SpecMeaning.HasPolicy(env, ing.rules, p.name)
    && b in lb && b.kind == BackendSets && b.name !in AllSetNames(env, cluster, ing)
    && b in lb[p].Refs()
  }

  lemma StaleBySpec(env: Env, cluster: Cluster, ing: Ingress, spec: Store, server: Server, lb: Store, p: Key, b: Key)
    requires GoodHash(env.gen) && ServicesFit(cluster) && IsSpec(env, cluster, ing, spec)
    ensures StaleInTheWay(env, cluster, ing, server, lb, p, b) <==> StalePolicyInTheWay(server, spec, lb, p, b)
  {
    if p.kind == RoutingPolicies {
      SpecMeaning.FrontPolicy(env, cluster, ing, p.name);
      assert At(spec, p) == At(Front(env, cluster, ing).value, p);
    }
  }

  /** A policy or backend set that the Ingress no longer calls for blocks the reconciliation of `lb`. */
  ghost predicate Blocked(env: Env, cluster: Cluster, ing: Ingress, server: Server, lb: Store)
    requires GoodHash(env.gen) && ServicesFit(cluster)
  {
    exists p, b :: StaleInTheWay(env, cluster, ing, server, lb, p, b)
  }

  lemma BlockedBySpec(env: Env, cluster: Cluster, ing: Ingress, spec: Store, server: Server, lb: Store)
    requires GoodHash(env.gen) && ServicesFit(cluster) && IsSpec(env, cluster, ing, spec)
    ensures Blocked(env, cluster, ing, server, lb) <==> exists p, b :: StalePolicyInTheWay(server, spec, lb, p, b)
  {
    forall p, b ensures StaleInTheWay(env, cluster, ing, server, lb, p, b) <==> StalePolicyInTheWay(server, spec, lb, p, b) {
      StaleBySpec(env, cluster, ing, spec, server, lb, p, b);
    }
  }

  /** If certificates are as before or as wanted, they come from known bundles if they did before. */
  lemma StaysKnown(env: Env, cluster: Cluster, ing: Ingress, spec: Store, before: Store, t: Store, known: set<Bundle>)
    requires GoodHash(env.gen) && ServicesFit(cluster) && IsSpec(env, cluster, ing, spec) && PlainSecrets(ing)
    requires forall k <- t | k.kind == Certificates :: At(t, k) == At(before, k) || At(t, k) == At(spec, k)
    ensures cluster.secrets.Values <= known && CertificatesKnown(ing.namespace, before, known) ==> CertificatesKnown(ing.namespace, t, known)
  {
    hide PlainSecrets, IsNamed, IsKnown;
    if cluster.secrets.Values <= known && CertificatesKnown(ing.namespace, before, known) {
      forall k, secret, id | k in t && k.kind == Certificates && IsNamed(k.name, ing.namespace, secret, id)
        ensures IsKnown(t[k], id, known)
      {
        if At(t, k) == At(before, k) {
          assert IsKnown(before[k], id, known);
        } else {
          InSpec(env, cluster, ing, spec, k);
          FrontKnown(env, cluster, ing, known, k, secret, id);
        }
      }
    }
  }

  /**
   `UpdateOrCreateIngress`, given the load balancer found, if any. Without error the load balancer serves
   the Ingress, whatever state it was found in, whatever the weather and whatever order the maps are walked in.
   A spec that cannot be built changes nothing; and in fine weather a spec that can be built is carried out
   if and only if no stale policy blocks it. With or without error, certificates in the load balancer stay those of known bundles.
   */
  method UpdateOrCreateIngress(env: Env, cluster: Cluster, ing: Ingress, cloud: Cloud, found: Option<Store>,
                               ghost custom: SpecMeaning.Custom, ghost known: set<Bundle>)
    returns (ok: bool)
    requires GoodHash(env.gen) && ServicesFit(cluster) && IngressFits(env, ing) && NamesApart(env, cluster, ing)
    requires found.Some? ==> found.value == cloud.store
    requires found.Some? ==> Fits(cluster, ing, found.value)
    modifies cloud
    ensures ok ==> Unobjectionable(env, cluster, ing) && Serves(env, cluster, ing, found, cloud.store, custom)
    ensures !Unobjectionable(env, cluster, ing) ==> !ok && cloud.store == old(cloud.store)
    ensures Unobjectionable(env, cluster, ing) && cloud.AlwaysFine() ==>
              (ok <==> found.None? || !Blocked(env, cluster, ing, cloud.server, found.value))
    ensures cluster.secrets.Values <= known && CertificatesKnown(ing.namespace, old(cloud.store), known) ==>
              CertificatesKnown(ing.namespace, cloud.store, known)
  {
    BuildableExactly(env, cluster, ing);
    hide Serves, CertificatesKnown, Unobjectionable;
    var spec := NewIngressLBSpec(env, cluster, ing);
    if spec.Failure? { return false; }
    FrontIsPlain(env, cluster, ing);
    FrontWellNamed(env, cluster, ing);
    SpecLikeFront(env, cluster, ing, spec.value);
    SpecIsClosed(env, cluster, ing, spec.value);
    if found.None? {
      var result := Manager.ReconcileNew(cloud, spec.value);
      ok := result.Finished?;
      StaysKnown(env, cluster, ing, spec.value, old(cloud.store), cloud.store, known);
      if ok { NoDifferenceSettles(spec.value, cloud.store); }
    } else {
      PlainSecretsApart(cluster, ing);
      ClashBySpec(env, cluster, ing, spec.value, found.value);
      BlockedBySpec(env, cluster, ing, spec.value, cloud.server, found.value);
      var result, run := Manager.Reconcile(cloud, found.value, spec.value);
      ok := result.Finished?;
      StaysKnown(env, cluster, ing, spec.value, old(cloud.store), cloud.store, known);
      if ok { ReconciliationSettles(cloud.server, spec.value, found.value, run, cloud.store); }
    }
    if ok { SettledServes(env, cluster, ing, spec.value, found, cloud.store, custom); }
  }
}
