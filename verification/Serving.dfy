/**
 What the resources of a load balancer have to be for an Ingress to be served, field by field and in terms of the Ingress
 and the cluster alone; and that what the compiler makes, and what the comparisons take for it, is that.
 */
module Serving {
  import opened Wrappers
  import opened Names
  import opened SortedSets
  import opened Tables
  import opened Differences
  import opened Comparisons
  import opened Progress
  import opened Plans
  import RoutingRules
  import opened SpecCompiler

  // ---------------------------------------------------------------------------------------------
  // TLS hosts

  predicate HasTls(tls: seq<Tls>, host: string) {
    exists entry <- tls :: host in entry.hosts
  }

  /** The secret of the last TLS entry that names the host. */
  ghost predicate IsSecretOf(tls: seq<Tls>, host: string, secret: string) {
    exists i :: 0 <= i < |tls| && host in tls[i].hosts && tls[i].secret == secret && forall j | i < j < |tls| :: host !in tls[j].hosts
  }

  /** The table of TLS hosts: whoever is named, with the secret of the last entry naming it. */
  lemma {:induction false} LastEntryWins(tls: seq<Tls>, host: string)
    ensures host in HostsWithTls(tls) <==> HasTls(tls, host)
    ensures forall secret :: IsSecretOf(tls, host, secret) <==> host in HostsWithTls(tls) && HostsWithTls(tls)[host] == secret
  {
    if tls != [] {
      var init, last := tls[..|tls| - 1], tls[|tls| - 1];
      LastEntryWins(init, host);
      assert tls == init + [last];
      forall secret ensures IsSecretOf(tls, host, secret) <==> if host in last.hosts then secret == last.secret else IsSecretOf(init, host, secret) {
        LastEntryStep(init, last, host, secret);
      }
    }
  }

  lemma LastEntryStep(init: seq<Tls>, last: Tls, host: string, secret: string)
    ensures IsSecretOf(init + [last], host, secret)
            <==> if host in last.hosts then secret == last.secret else IsSecretOf(init, host, secret)
  {
    var tls, n := init + [last], |init|;
    assert tls[n] == last && forall i | 0 <= i < n :: tls[i] == init[i];
    if IsSecretOf(tls, host, secret) {
      var i :| 0 <= i < |tls| && host in tls[i].hosts && tls[i].secret == secret && forall j | i < j < |tls| :: host !in tls[j].hosts;
      assert i == n <==> host in last.hosts;
    }
    if host !in last.hosts && IsSecretOf(init, host, secret) {
      var i :| 0 <= i < n && host in init[i].hosts && init[i].secret == secret && forall j | i < j < n :: host !in init[j].hosts;
      assert host in tls[i].hosts && tls[i].secret == secret;
    }
  }

  // ---------------------------------------------------------------------------------------------
  // The listener of a host

  /** The certificate of the host: named after namespace, secret and the id of what the secret holds, checked to depth one. */
  ghost predicate IsSslFor(cluster: Cluster, ing: Ingress, host: string, ssl: Ssl) {
    exists secret <- cluster.secrets ::
      && IsSecretOf(ing.tls, host, secret)
      && ssl.certificateName == ing.namespace + "_" + secret + "_" + cluster.secrets[secret].id
      && ssl.verifyDepth == 1 && !ssl.verifyPeer
  }

  /** The listener of a host: its policy, its hostname entry, the dummy set as default, and HTTP or TLS as the Ingress has it. */
  ghost predicate IsListenerFor(env: Env, cluster: Cluster, ing: Ingress, host: string, l: Resource)
    requires GoodHash(env.gen)
  {
    && l.Listener?
    && l.routingPolicy == RoutingPolicyName(env.gen, host)
    && l.hostnames == (if host == "" then [] else [HostnameName(env.gen, host)])
    && l.defaultBackendSet == "dummy"
    && l.ruleSets == []
    && if HasTls(ing.tls, host)
       then l.port == 443 && l.protocol == "HTTP2" && l.ssl.Some? && IsSslFor(cluster, ing, host, l.ssl.value)
       else l.port == 80 && l.protocol == "HTTP" && l.ssl.None?
  }

  /** The certificate of a TLS host is in the tables under that name, with the public parts of what the secret holds. */
  ghost predicate HasCertificateFor(cluster: Cluster, ing: Ingress, host: string, t: Store) {
    exists secret <- cluster.secrets ::
      && IsSecretOf(ing.tls, host, secret)
      && At(t, Key(Certificates, ing.namespace + "_" + secret + "_" + cluster.secrets[secret].id))
         == Some(Certificate(cluster.secrets[secret].publicPem, cluster.secrets[secret].caPem))
  }

  lemma MadeSsl(cluster: Cluster, ing: Ingress, host: string)
    requires SslFor(cluster, ing, host).Some?
    ensures IsSslFor(cluster, ing, host, SslFor(cluster, ing, host).value)
  {
    LastEntryWins(ing.tls, host);
    var secret := HostsWithTls(ing.tls)[host];
    assert IsSecretOf(ing.tls, host, secret);
  }

  lemma MadeCipherSuite(cluster: Cluster, ing: Ingress, host: string)
    ensures var ssl := SslFor(cluster, ing, host); ssl.Some? ==> ssl.value.cipherSuite == "oci-default-http2-ssl-cipher-suite-v1"
  {
  }

  /** The listener the compiler makes for a host. */
  lemma MadeListener(env: Env, cluster: Cluster, ing: Ingress, host: string)
    requires GoodHash(env.gen) && (host in HostsWithTls(ing.tls) <==> SslFor(cluster, ing, host).Some?)
    ensures IsListenerFor(env, cluster, ing, host, HostListener(env, host, SslFor(cluster, ing, host)))
    ensures var l := HostListener(env, host, SslFor(cluster, ing, host));
      l.Listener? && l.connection.None? && (l.ssl.Some? ==> l.ssl.value.cipherSuite == "oci-default-http2-ssl-cipher-suite-v1")
  {
    MadeCipherSuite(cluster, ing, host);
    hide SslFor, RoutingPolicyName, HostnameName, IsSslFor, HasTls;
    LastEntryWins(ing.tls, host);
    if SslFor(cluster, ing, host).Some? { MadeSsl(cluster, ing, host); }
  }

  /** A listener the comparison takes for that of the host is that of the host. */
  lemma TakenForListener(env: Env, cluster: Cluster, ing: Ingress, host: string, wanted: Resource, l: Resource)
    requires GoodHash(env.gen) && IsListenerFor(env, cluster, ing, host, wanted)
    requires PlainLists(wanted) && PlainLists(l) && !Changed(l, wanted)
    ensures IsListenerFor(env, cluster, ing, host, l)
  {
    hide Changed, PlainLists, RoutingPolicyName, HostnameName, HasTls;
    ListenersAgree(l, wanted);
  }

  // ---------------------------------------------------------------------------------------------
  // The listeners of no host

  /** A listener for all hosts on port 80, which sends everything to its default set. */
  predicate IsOpenListener(l: Resource) {
    && l.Listener?
    && l.port == 80 && l.protocol == "HTTP" && l.ssl.None?
    && l.hostnames == [] && l.routingPolicy == "" && l.ruleSets == []
  }

  /** The redirecting listener: the TLS hosts on port 80, without routing. */
  ghost predicate IsRedirector(ing: Ingress, l: Resource) {
    && l.Listener?
    && l.defaultBackendSet == "dummy"
    && l.port == 80 && l.protocol == "HTTP" && l.ssl.None?
    && (forall host :: host in l.hostnames <==> HasTls(ing.tls, host))
    && l.routingPolicy == ""
  }

  /** Redirection is asked for: there are TLS hosts, and the annotation says so, or leaves it to the default. */
  predicate WantsRedirection(env: Env, ing: Ingress) {
    && (exists entry <- ing.tls :: entry.hosts != [])
    && (ing.forceRedirect == "true" || (ing.forceRedirect == "" && env.redirectByDefault))
  }

  lemma RedirectionWanted(env: Env, ing: Ingress)
    ensures Redirects(env, ing) <==> WantsRedirection(env, ing)
  {
    if entry :| entry in ing.tls && entry.hosts != [] {
      LastEntryWins(ing.tls, entry.hosts[0]);
      assert entry.hosts[0] in HostsWithTls(ing.tls);
    } else {
      forall host ensures host !in HostsWithTls(ing.tls) { LastEntryWins(ing.tls, host); }
    }
  }

  lemma MadeRedirector(ing: Ingress)
    ensures IsRedirector(ing, Redirector(ing)) && Redirector(ing).ruleSets == ["https_redirection"]
  {
    AscendingMembers(HostsWithTls(ing.tls).Keys);
    forall host ensures host in Redirector(ing).hostnames <==> HasTls(ing.tls, host) { LastEntryWins(ing.tls, host); }
  }

  lemma TakenForRedirector(ing: Ingress, wanted: Resource, l: Resource)
    requires IsRedirector(ing, wanted) && PlainLists(wanted) && PlainLists(l) && !Changed(Strip(l), Strip(wanted))
    ensures IsRedirector(ing, l)
  {
    hide Changed, HasTls;
    ListenersAgree(Strip(l), Strip(wanted));
  }

  lemma TakenForOpen(wanted: Resource, l: Resource)
    requires IsOpenListener(wanted) && PlainLists(l) && !Changed(l, wanted)
    ensures IsOpenListener(l) && l.defaultBackendSet == wanted.defaultBackendSet
  {
    hide Changed;
    ListenersAgree(l, wanted);
  }

  // ---------------------------------------------------------------------------------------------
  // The backend set of a declared backend

  /**
   The set behind a declared backend: for exactly the nodes with an address, a backend on the node port of the port that
   is meant, the policy of the Ingress, and the health checker of the service.
   */
  ghost predicate IsSetBehind(cluster: Cluster, ing: Ingress, backend: RoutingRules.Backend, r: Resource) {
    && backend.ServiceBackend? && backend.service in cluster.services && r.BackendSet?
    && ing.policy == Success(r.policy)
    && var service := cluster.services[backend.service];
    && service.healthChecker.Success? && HealthCheckerFits(r.healthChecker, service.healthChecker.value)
    && exists i: nat :: i < |service.ports| && IsPortOf(service.ports, backend, i) && ServesNodes(cluster.nodes, service.ports[i].nodePort, r.backends)
  }

  /** The addresses are those of the nodes that have one, on the port. */
  ghost predicate ServesNodes(nodes: seq<Node>, nodePort: int, backends: seq<Backend>) {
    forall ip, port :: HasAddress(backends, ip, port) <==> port == nodePort && ip != "" && exists node <- nodes :: node.ip == ip
  }

  /** A set the comparison takes for the set behind a backend is one. */
  lemma TakenForSet(cluster: Cluster, ing: Ingress, backend: RoutingRules.Backend, wanted: Resource, r: Resource)
    requires IsSetBehind(cluster, ing, backend, wanted) && wanted.BackendSet? && wanted.healthChecker.Some? && !Changed(r, wanted)
    requires backend.ServiceBackend? && backend.service in cluster.services
    requires cluster.services[backend.service].healthChecker == Success(wanted.healthChecker.value)
    ensures IsSetBehind(cluster, ing, backend, r)
  {
    hide Changed, HasAddress, IsPortOf;
    BackendSetsAgree(r, wanted);
    var service := cluster.services[backend.service];
    var i: nat :| i < |service.ports| && IsPortOf(service.ports, backend, i) && ServesNodes(cluster.nodes, service.ports[i].nodePort, wanted.backends);
    assert ServesNodes(cluster.nodes, service.ports[i].nodePort, r.backends);
  }

  /** The set of listeners that send nothing on by themselves: no backends, and a health checker that asks for the root. */
  predicate IsEmptySet(policy: string, r: Resource) {
    && r.BackendSet? && r.policy == policy && r.backends == []
    && HealthCheckerFits(r.healthChecker, HealthChecker("HTTP", "/", 0, 3, 10000, 3000, 0, ""))
  }

  lemma TakenForEmpty(policy: string, wanted: Resource, r: Resource)
    requires IsEmptySet(policy, wanted) && !Changed(r, wanted)
    requires wanted.healthChecker == Some(HealthChecker("HTTP", "/", 0, 3, 10000, 3000, 0, ""))
    ensures IsEmptySet(policy, r)
  {
    hide Changed;
    BackendSetsAgree(r, wanted);
    assert r.backends != [] ==> HasAddress(r.backends, r.backends[0].ip, r.backends[0].port);
  }
}
