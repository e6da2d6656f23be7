/**
 The tables compiled before the backend sets, looked at from outside: the listeners and certificates of each host,
 and names fit for the reconciliation.
 */
module FrontTables {
  import opened Wrappers
  import opened Strings
  import opened ListenerNames
  import opened Names
  import opened SortedSets
  import opened Tables
  import opened Differences
  import opened Progress
  import opened SpecCompiler
  import opened SpecClosure
  import opened Serving

  // ---------------------------------------------------------------------------------------------
  // Plain lists

  /** Rule hosts as the Kubernetes API grants them, and no dangling name in the redirecting listener. */
  ghost predicate IngressFits(env: Env, ing: Ingress)
    requires GoodHash(env.gen)
  {
    (forall rule <- ing.rules :: IsIngressHost(rule.host)) && TlsHostsListed(env, ing)
  }

  lemma HostIsPlain(host: string)
    requires IsIngressHost(host) && host != ""
    ensures PlainName(host)
  {
    if !IsHostName(host) {
      assert host == host[..2] + host[2..] && host[0] == '*' && host[1] == '.';
      forall c | c in host ensures c != ' ' {
        if c !in host[2..] { assert c in host[..2]; }
      }
    }
  }

  predicate PlainHosts(rules: seq<IngressRule>) {
    forall rule <- rules :: IsPlainHost(rule.host)
  }

  predicate IsPlainHost(host: string) {
    host == "" || PlainName(host)
  }

  lemma EntryIsPlain(env: Env, host: string)
    requires GoodHash(env.gen) && PlainName(host)
    ensures PlainName(HostnameName(env.gen, host))
  {
    if |host| > 240 {
      DigestAlphaNumeric(env.gen, host, 15);
      forall c | c in HostnameName(env.gen, host) ensures c != ' ' {
        assert c in host[..240] || c in Digest(env.gen, host, 15);
      }
    }
  }

  lemma FitsPlainly(env: Env, ing: Ingress)
    requires GoodHash(env.gen) && IngressFits(env, ing)
    ensures PlainHosts(ing.rules) && (Redirects(env, ing) ==> forall host <- HostsWithTls(ing.tls) :: PlainName(host))
  {
    forall rule | rule in ing.rules ensures IsPlainHost(rule.host) {
      if rule.host != "" { HostIsPlain(rule.host); }
    }
    if Redirects(env, ing) {
      forall host | host in HostsWithTls(ing.tls) ensures PlainName(host) {
        assert HostEntry(env, ing, |ing.rules|, host);
        var i: nat :| i < |ing.rules| && ing.rules[i].host != "" && HostnameName(env.gen, ing.rules[i].host) == host;
        EntryIsPlain(env, ing.rules[i].host);
      }
    }
  }

  lemma PutKeepsPlain(s: Store, k: Key, r: Resource)
    requires PlainListeners(s) && PlainLists(r)
    ensures PlainListeners(s[k := r])
  {
  }

  lemma CertificateKeepsPlain(cluster: Cluster, ing: Ingress, s: Store, host: string)
    requires PlainListeners(s) && AddCertificate(cluster, ing, s, host).Success?
    ensures PlainListeners(AddCertificate(cluster, ing, s, host).value.1)
  {
  }

  lemma PolicyKeepsPlain(env: Env, s: Store, host: string, rules: seq<Rule>)
    requires GoodHash(env.gen) && PlainListeners(s)
    ensures PlainListeners(AddPolicy(AddHostname(env, s, host), RoutingPolicyName(env.gen, host), rules))
  {
    var t := AddHostname(env, s, host);
    assert PlainListeners(t);
    var k := Key(RoutingPolicies, RoutingPolicyName(env.gen, host));
    PutKeepsPlain(t, k, AddPolicy(t, k.name, rules)[k]);
  }

  lemma ListenerKeepsPlain(env: Env, s: Store, k: Key, host: string, ssl: Option<Ssl>)
    requires GoodHash(env.gen) && PlainListeners(s) && IsPlainHost(host)
    ensures PlainListeners(s[k := HostListener(env, host, ssl)])
  {
    if host != "" { EntryIsPlain(env, host); }
    PutKeepsPlain(s, k, HostListener(env, host, ssl));
  }

  lemma RuleKeepsPlain(env: Env, cluster: Cluster, ing: Ingress, s: Store, rule: IngressRule)
    requires GoodHash(env.gen) && ServicesFit(cluster) && AddRule(env, cluster, ing, s, rule).Success?
    requires PlainListeners(s) && IsPlainHost(rule.host)
    ensures PlainListeners(AddRule(env, cluster, ing, s, rule).value)
  {
    var (ssl, s1) := AddCertificate(cluster, ing, s, rule.host).value;
    var rules := HttpRules(env, cluster, rule.http.value, rule.host).value;
    var s2 := AddHostname(env, s1, rule.host);
    var k := Key(Listeners, ListenerName(env.gen, EntryHost(env, s2, rule.host)));
    CertificateKeepsPlain(cluster, ing, s, rule.host);
    PolicyKeepsPlain(env, s1, rule.host, rules);
    ListenerKeepsPlain(env, AddPolicy(s2, RoutingPolicyName(env.gen, rule.host), rules), k, rule.host, ssl);
  }

  lemma {:induction false} RulesKeepPlain(env: Env, cluster: Cluster, ing: Ingress, n: nat)
    requires GoodHash(env.gen) && ServicesFit(cluster) && PlainHosts(ing.rules)
    requires n <= |ing.rules| && AddRules(env, cluster, ing, n).Success?
    ensures PlainListeners(AddRules(env, cluster, ing, n).value)
  {
    hide AddRule;
    if n > 0 {
      RulesKeepPlain(env, cluster, ing, n - 1);
      RuleKeepsPlain(env, cluster, ing, AddRules(env, cluster, ing, n - 1).value, ing.rules[n - 1]);
    }
  }

  lemma DefaultKeepsPlain(env: Env, cluster: Cluster, ing: Ingress, s: Store)
    requires GoodHash(env.gen) && ServicesFit(cluster) && PlainListeners(s) && AddDefault(env, cluster, ing, s).Success?
    ensures PlainListeners(AddDefault(env, cluster, ing, s).value)
  {
  }

  lemma RedirectorKeepsPlain(env: Env, ing: Ingress, s: Store)
    requires PlainListeners(s) && (Redirects(env, ing) ==> forall host <- HostsWithTls(ing.tls) :: PlainName(host))
    ensures PlainListeners(AddRedirector(env, ing, s))
  {
    if Redirects(env, ing) {
      var k, ruleSet := Key(RuleSets, REDIRECTION), RuleSet(["redirect / to https, port 443, code 308"]);
      PutKeepsPlain(s, k, ruleSet);
      RedirectorPlain(ing);
      PutKeepsPlain(s[k := ruleSet], Key(Listeners, REDIRECTOR), Redirector(ing));
    }
  }

  lemma RedirectorPlain(ing: Ingress)
    requires forall host <- HostsWithTls(ing.tls) :: PlainName(host)
    ensures PlainLists(Redirector(ing))
  {
    AscendingMembers(HostsWithTls(ing.tls).Keys);
    hide HostsWithTls, Ascending, PlainName;
    OpenListenerPlain(Ascending(HostsWithTls(ing.tls).Keys), REDIRECTION);
  }

  lemma OpenListenerPlain(hostnames: seq<string>, ruleSet: string)
    requires (forall host <- hostnames :: PlainName(host)) && PlainName(ruleSet)
    ensures PlainLists(Listener(DUMMY, 80, "HTTP", None, None, hostnames, "", [ruleSet]))
  {
  }

  lemma FrontIsPlain(env: Env, cluster: Cluster, ing: Ingress)
    requires GoodHash(env.gen) && ServicesFit(cluster) && IngressFits(env, ing) && Front(env, cluster, ing).Success?
    ensures PlainListeners(Front(env, cluster, ing).value)
  {
    FitsPlainly(env, ing);
    var s := AddRules(env, cluster, ing, |ing.rules|).value;
    RulesKeepPlain(env, cluster, ing, |ing.rules|);
    DefaultKeepsPlain(env, cluster, ing, s);
    RedirectorKeepsPlain(env, ing, AddDefault(env, cluster, ing, s).value);
  }

  // ---------------------------------------------------------------------------------------------
  // The listener of a host

  /** The listener name of the host is neither that of another host nor one of the fixed names. */
  ghost predicate ListenerNameApart(env: Env, ing: Ingress, host: string)
    requires GoodHash(env.gen)
  {
    && OwnListener(env, ing.rules, host)
    && ListenerName(env.gen, host) !in [DEFAULT_BACKEND, CATCH_ALL, REDIRECTOR]
  }

  ghost predicate OwnListener(env: Env, rules: seq<IngressRule>, host: string)
    requires GoodHash(env.gen)
  {
    forall rule <- rules :: ListenerName(env.gen, rule.host) == ListenerName(env.gen, host) ==> rule.host == host
  }

  /** Different hosts of the Ingress get different hostname entries. */
  ghost predicate EntriesApart(env: Env, rules: seq<IngressRule>)
    requires GoodHash(env.gen)
  {
    forall a, b | a in rules && b in rules :: HostnameName(env.gen, a.host) == HostnameName(env.gen, b.host) ==> a.host == b.host
  }

  ghost predicate OwnEntries(env: Env, rules: seq<IngressRule>, s: Store)
    requires GoodHash(env.gen)
  {
    forall k: Key :: OwnEntry(env, rules, k, At(s, k))
  }

  /** A hostname entry was made for the host of a rule. */
  ghost predicate OwnEntry(env: Env, rules: seq<IngressRule>, k: Key, r: Option<Resource>)
    requires GoodHash(env.gen)
  {
    k.kind == Hostnames && r.Some? ==>
      r.value.Hostname? && exists rule <- rules :: rule.host == r.value.hostname && HostnameName(env.gen, rule.host) == k.name
  }

  lemma RuleEntry(env: Env, cluster: Cluster, ing: Ingress, s: Store, rule: IngressRule, k: Key)
    requires GoodHash(env.gen) && ServicesFit(cluster) && AddRule(env, cluster, ing, s, rule).Success?
    requires rule in ing.rules && OwnEntry(env, ing.rules, k, At(s, k))
    ensures OwnEntry(env, ing.rules, k, At(AddRule(env, cluster, ing, s, rule).value, k))
  {
    hide ListenerName, IsListenerName, IsPolicyName, HttpRules, HostListener, RoutingPolicyName;
    var (ssl, s1) := AddCertificate(cluster, ing, s, rule.host).value;
    assert k.kind == Hostnames ==> At(s1, k) == At(s, k);
  }

  lemma RuleEntries(env: Env, cluster: Cluster, ing: Ingress, s: Store, rule: IngressRule)
    requires GoodHash(env.gen) && ServicesFit(cluster) && AddRule(env, cluster, ing, s, rule).Success?
    requires OwnEntries(env, ing.rules, s) && rule in ing.rules
    ensures OwnEntries(env, ing.rules, AddRule(env, cluster, ing, s, rule).value)
  {
    forall k ensures OwnEntry(env, ing.rules, k, At(AddRule(env, cluster, ing, s, rule).value, k)) {
      assert OwnEntry(env, ing.rules, k, At(s, k));
      RuleEntry(env, cluster, ing, s, rule, k);
    }
  }

  lemma OwnHost(env: Env, cluster: Cluster, ing: Ingress, s: Store, rule: IngressRule)
    requires GoodHash(env.gen) && OwnEntries(env, ing.rules, s) && EntriesApart(env, ing.rules) && rule in ing.rules
    requires AddCertificate(cluster, ing, s, rule.host).Success?
    ensures EntryHost(env, AddHostname(env, AddCertificate(cluster, ing, s, rule.host).value.1, rule.host), rule.host) == rule.host
  {
    var k := Key(Hostnames, HostnameName(env.gen, rule.host));
    assert OwnEntry(env, ing.rules, k, At(s, k));
  }

  /** The configuration made for a host does not depend on the tables. */
  lemma SslOfHost(cluster: Cluster, ing: Ingress, s: Store, host: string)
    requires AddCertificate(cluster, ing, s, host).Success?
    ensures var (ssl, t) := AddCertificate(cluster, ing, s, host).value;
      && ssl == SslFor(cluster, ing, host) && (ssl.Some? <==> host in HostsWithTls(ing.tls))
      && t == if ssl.Some? then AddNew(s, Key(Certificates, ssl.value.certificateName), CertificateOf(cluster, ing, host)) else s
  {
  }

  /** The certificate of a TLS host, with the public parts of its secret. */
  function CertificateOf(cluster: Cluster, ing: Ingress, host: string): Resource
    requires SslFor(cluster, ing, host).Some?
  {
    var bundle := cluster.secrets[HostsWithTls(ing.tls)[host]];
    Certificate(bundle.publicPem, bundle.caPem)
  }

  lemma RuleListener(env: Env, cluster: Cluster, ing: Ingress, s: Store, rule: IngressRule, k: Key)
    requires GoodHash(env.gen) && ServicesFit(cluster) && AddRule(env, cluster, ing, s, rule).Success?
    requires OwnEntries(env, ing.rules, s) && EntriesApart(env, ing.rules) && rule in ing.rules && k.kind == Listeners
    ensures At(AddRule(env, cluster, ing, s, rule).value, k)
         == if k.name != ListenerName(env.gen, rule.host) then At(s, k)
            else Some(HostListener(env, rule.host, SslFor(cluster, ing, rule.host)))
  {
    hide ListenerName, IsListenerName, IsPolicyName, HttpRules, HostListener, RoutingPolicyName;
    OwnHost(env, cluster, ing, s, rule);
    SslOfHost(cluster, ing, s, rule.host);
    var (ssl, s1) := AddCertificate(cluster, ing, s, rule.host).value;
    assert At(s1, k) == At(s, k);
    assert At(AddHostname(env, s1, rule.host), k) == At(s, k);
  }

  predicate HasHost(rules: seq<IngressRule>, host: string) {
    exists rule <- rules :: rule.host == host
  }

  lemma HasHostStep(rules: seq<IngressRule>, n: nat, host: string)
    requires n < |rules|
    ensures HasHost(rules[..n + 1], host) <==> HasHost(rules[..n], host) || rules[n].host == host
  {
    assert rules[..n + 1] == rules[..n] + [rules[n]];
  }

  lemma {:induction false} RulesEntries(env: Env, cluster: Cluster, ing: Ingress, n: nat)
    requires GoodHash(env.gen) && ServicesFit(cluster)
    requires n <= |ing.rules| && AddRules(env, cluster, ing, n).Success?
    ensures OwnEntries(env, ing.rules, AddRules(env, cluster, ing, n).value)
  {
    hide AddRule;
    if n > 0 {
      RulesEntries(env, cluster, ing, n - 1);
      RuleEntries(env, cluster, ing, AddRules(env, cluster, ing, n - 1).value, ing.rules[n - 1]);
    } else {
      forall k ensures OwnEntry(env, ing.rules, k, At(map[], k)) {}
    }
  }

  /** Once a rule for the host has been dealt with, its listener is there. */
  lemma {:induction false} HostListeners(env: Env, cluster: Cluster, ing: Ingress, n: nat, host: string, k: Key)
    requires GoodHash(env.gen) && ServicesFit(cluster) && EntriesApart(env, ing.rules) && OwnListener(env, ing.rules, host)
    requires n <= |ing.rules| && AddRules(env, cluster, ing, n).Success?
    requires k == Key(Listeners, ListenerName(env.gen, host)) && HasHost(ing.rules[..n], host)
    ensures At(AddRules(env, cluster, ing, n).value, k) == Some(HostListener(env, host, SslFor(cluster, ing, host)))
  {
    hide AddRule, ListenerName, HostListener, SslFor;
    HasHostStep(ing.rules, n - 1, host);
    RulesEntries(env, cluster, ing, n - 1);
    RuleListener(env, cluster, ing, AddRules(env, cluster, ing, n - 1).value, ing.rules[n - 1], k);
    if ing.rules[n - 1].host != host {
      assert ing.rules[n - 1] in ing.rules;
      HostListeners(env, cluster, ing, n - 1, host, k);
    }
  }

  /** The listeners after the loop are those of the hosts. */
  lemma {:induction false} ListenerKeys(env: Env, cluster: Cluster, ing: Ingress, n: nat, k: Key)
    requires GoodHash(env.gen) && ServicesFit(cluster) && EntriesApart(env, ing.rules) && k.kind == Listeners
    requires n <= |ing.rules| && AddRules(env, cluster, ing, n).Success?
    ensures k in AddRules(env, cluster, ing, n).value <==> IsHostListenerName(env, ing.rules[..n], k.name)
    ensures k in AddRules(env, cluster, ing, n).value ==> AddRules(env, cluster, ing, n).value[k].Listener?
  {
    hide AddRule, ListenerName;
    if n > 0 {
      var s := AddRules(env, cluster, ing, n - 1).value;
      ListenerKeys(env, cluster, ing, n - 1, k);
      RulesEntries(env, cluster, ing, n - 1);
      RuleListener(env, cluster, ing, s, ing.rules[n - 1], k);
      HostNameStep(env, ing.rules, n - 1, k.name);
      assert At(AddRules(env, cluster, ing, n).value, k) == At(AddRule(env, cluster, ing, s, ing.rules[n - 1]).value, k);
    }
  }

  ghost predicate IsHostListenerName(env: Env, rules: seq<IngressRule>, name: string)
    requires GoodHash(env.gen)
  {
    exists rule <- rules :: ListenerName(env.gen, rule.host) == name
  }

  lemma HostNameStep(env: Env, rules: seq<IngressRule>, n: nat, name: string)
    requires GoodHash(env.gen) && n < |rules|
    ensures IsHostListenerName(env, rules[..n + 1], name)
            <==> IsHostListenerName(env, rules[..n], name) || ListenerName(env.gen, rules[n].host) == name
  {
    hide ListenerName;
    assert rules[..n + 1] == rules[..n] + [rules[n]];
  }

  // ---------------------------------------------------------------------------------------------
  // The listeners of no host

  /** The listener for requests to no known host, and its name. */
  function OpenListener(env: Env, cluster: Cluster, ing: Ingress): Resource
    requires GoodHash(env.gen) && ServicesFit(cluster)
  {
    match ing.defaultBackend
    case None => PlainListener(DUMMY)
    case Some(backend) =>
      match Resolve(env, cluster, backend)
      case Success(backendSet) => PlainListener(backendSet)
      case Failure(_) => PlainListener(DUMMY)
  }

  function OpenListenerName(ing: Ingress): string {
    if ing.defaultBackend.Some? then DEFAULT_BACKEND else CATCH_ALL
  }

  lemma MadeOpen(env: Env, cluster: Cluster, ing: Ingress)
    requires GoodHash(env.gen) && ServicesFit(cluster)
    ensures OpenListenerName(ing) == if ing.defaultBackend.Some? then "DefaultBackend-http" else "Sans-VirtualHost-HTTP"
    ensures IsOpenListener(OpenListener(env, cluster, ing))
    ensures OpenListener(env, cluster, ing).defaultBackendSet
         == if ing.defaultBackend.Some? && Resolve(env, cluster, ing.defaultBackend.value).Success?
            then Resolve(env, cluster, ing.defaultBackend.value).value else "dummy"
  {
  }

  lemma DefaultListener(env: Env, cluster: Cluster, ing: Ingress, s: Store, k: Key)
    requires GoodHash(env.gen) && ServicesFit(cluster) && AddDefault(env, cluster, ing, s).Success?
    requires k.kind == Listeners && (k in s ==> s[k].Listener?)
    ensures At(AddDefault(env, cluster, ing, s).value, k)
         == if k.name == OpenListenerName(ing) then Some(OpenListener(env, cluster, ing)) else At(s, k)
  {
  }

  lemma RedirectorListener(env: Env, ing: Ingress, s: Store, k: Key)
    requires k.kind == Listeners
    ensures At(AddRedirector(env, ing, s), k)
         == if Redirects(env, ing) && k.name == REDIRECTOR then Some(Redirector(ing)) else At(s, k)
  {
    hide Redirector, Redirects;
  }

  lemma NamesDiffer(ing: Ingress)
    ensures OpenListenerName(ing) != REDIRECTOR
  {
    assert DEFAULT_BACKEND[0] == 'D' && CATCH_ALL[0] == 'S' && REDIRECTOR[0] == 'h';
  }

  /** Each listener of the front tables. */
  lemma FrontListenerAt(env: Env, cluster: Cluster, ing: Ingress, k: Key)
    requires GoodHash(env.gen) && ServicesFit(cluster) && EntriesApart(env, ing.rules) && Front(env, cluster, ing).Success?
    requires k.kind == Listeners
    ensures AddRules(env, cluster, ing, |ing.rules|).Success?
    ensures At(Front(env, cluster, ing).value, k)
         == if Redirects(env, ing) && k.name == REDIRECTOR then Some(Redirector(ing))
            else if k.name == OpenListenerName(ing) then Some(OpenListener(env, cluster, ing))
            else At(AddRules(env, cluster, ing, |ing.rules|).value, k)
  {
    hide AddRules, Redirector, Redirects, OpenListener, OpenListenerName;
    var s := AddRules(env, cluster, ing, |ing.rules|).value;
    ListenerKeys(env, cluster, ing, |ing.rules|, k);
    DefaultListener(env, cluster, ing, s, k);
    RedirectorListener(env, ing, AddDefault(env, cluster, ing, s).value, k);
  }

  lemma FrontSsl(env: Env, cluster: Cluster, ing: Ingress, rule: IngressRule)
    requires GoodHash(env.gen) && ServicesFit(cluster) && Front(env, cluster, ing).Success? && rule in ing.rules
    ensures rule.host in HostsWithTls(ing.tls) <==> SslFor(cluster, ing, rule.host).Some?
  {
    hide AddRules;
    assert ing.rules[..|ing.rules|] == ing.rules;
    CertificateThere(env, cluster, ing, |ing.rules|, rule.host, Key(Certificates, ""));
  }

  /** The listener of a rule host: the one made for it, which is what a listener of the host has to be. */
  lemma FrontListener(env: Env, cluster: Cluster, ing: Ingress, rule: IngressRule)
    requires GoodHash(env.gen) && ServicesFit(cluster) && EntriesApart(env, ing.rules) && Front(env, cluster, ing).Success?
    requires rule in ing.rules && ListenerNameApart(env, ing, rule.host)
    ensures At(Front(env, cluster, ing).value, Key(Listeners, ListenerName(env.gen, rule.host)))
         == Some(HostListener(env, rule.host, SslFor(cluster, ing, rule.host)))
    ensures var l := Front(env, cluster, ing).value[Key(Listeners, ListenerName(env.gen, rule.host))];
      && IsListenerFor(env, cluster, ing, rule.host, l)
      && l.Listener? && l.connection.None? && (l.ssl.Some? ==> l.ssl.value.cipherSuite == "oci-default-http2-ssl-cipher-suite-v1")
  {
    hide AddRules, HostListener, SslFor, Redirector, OpenListener, ListenerName, Front, Redirects, IsListenerFor;
    FrontSsl(env, cluster, ing, rule);
    MadeListener(env, cluster, ing, rule.host);
    var k := Key(Listeners, ListenerName(env.gen, rule.host));
    assert ing.rules[..|ing.rules|] == ing.rules;
    FrontListenerAt(env, cluster, ing, k);
    HostListeners(env, cluster, ing, |ing.rules|, rule.host, k);
  }

  /** The listener for unknown hosts, and the redirecting one. */
  lemma FrontOpenListeners(env: Env, cluster: Cluster, ing: Ingress)
    requires GoodHash(env.gen) && ServicesFit(cluster) && EntriesApart(env, ing.rules) && Front(env, cluster, ing).Success?
    ensures At(Front(env, cluster, ing).value, Key(Listeners, OpenListenerName(ing))) == Some(OpenListener(env, cluster, ing))
    ensures Redirects(env, ing) ==> At(Front(env, cluster, ing).value, Key(Listeners, REDIRECTOR)) == Some(Redirector(ing))
    ensures var name := if ing.defaultBackend.Some? then "DefaultBackend-http" else "Sans-VirtualHost-HTTP";
      && Key(Listeners, name) in Front(env, cluster, ing).value
      && IsOpenListener(Front(env, cluster, ing).value[Key(Listeners, name)])
      && Front(env, cluster, ing).value[Key(Listeners, name)].defaultBackendSet
         == if ing.defaultBackend.Some? && Resolve(env, cluster, ing.defaultBackend.value).Success?
            then Resolve(env, cluster, ing.defaultBackend.value).value else "dummy"
    ensures WantsRedirection(env, ing) ==>
      && Key(Listeners, "http-to-https-redirector") in Front(env, cluster, ing).value
      && IsRedirector(ing, Front(env, cluster, ing).value[Key(Listeners, "http-to-https-redirector")])
      && Front(env, cluster, ing).value[Key(Listeners, "http-to-https-redirector")].ruleSets == ["https_redirection"]
  {
    MadeOpen(env, cluster, ing);
    MadeRedirector(ing);
    RedirectionWanted(env, ing);
    hide AddRules, Front, Redirector, OpenListener, OpenListenerName, Redirects, IsOpenListener, IsRedirector, WantsRedirection;
    NamesDiffer(ing);
    FrontListenerAt(env, cluster, ing, Key(Listeners, OpenListenerName(ing)));
    FrontListenerAt(env, cluster, ing, Key(Listeners, REDIRECTOR));
  }

  /** The rule set of the redirecting listener. */
  lemma FrontRuleSet(env: Env, cluster: Cluster, ing: Ingress)
    requires GoodHash(env.gen) && ServicesFit(cluster) && Front(env, cluster, ing).Success? && WantsRedirection(env, ing)
    ensures At(Front(env, cluster, ing).value, Key(RuleSets, "https_redirection"))
         == Some(RuleSet(["redirect / to https, port 443, code 308"]))
  {
    RedirectionWanted(env, ing);
    hide AddRules, AddDefault, Redirects, WantsRedirection, Redirector;
  }

  // ---------------------------------------------------------------------------------------------
  // Names that sanitizing tells apart

  /** The listener names an Ingress leads to. */
  ghost predicate IsListenerNameOf(env: Env, ing: Ingress, name: string)
    requires GoodHash(env.gen)
  {
    || IsHostListenerName(env, ing.rules, name)
    || name == OpenListenerName(ing)
    || (Redirects(env, ing) && name == REDIRECTOR)
  }

  /** No two of them have the same first two fields. */
  ghost predicate ListenersApart(env: Env, ing: Ingress)
    requires GoodHash(env.gen)
  {
    forall m, n | IsListenerNameOf(env, ing, m) && IsListenerNameOf(env, ing, n) && Kept(m) == Kept(n) :: m == n
  }

  lemma FrontListenerKeys(env: Env, cluster: Cluster, ing: Ingress, name: string)
    requires GoodHash(env.gen) && ServicesFit(cluster) && EntriesApart(env, ing.rules) && Front(env, cluster, ing).Success?
    ensures Key(Listeners, name) in Front(env, cluster, ing).value <==> IsListenerNameOf(env, ing, name)
  {
    hide AddRules, Front, Redirector, OpenListener, OpenListenerName, Redirects, ListenerName;
    var k := Key(Listeners, name);
    assert ing.rules[..|ing.rules|] == ing.rules;
    FrontListenerAt(env, cluster, ing, k);
    ListenerKeys(env, cluster, ing, |ing.rules|, k);
    assert k in Front(env, cluster, ing).value <==> At(Front(env, cluster, ing).value, k).Some?;
  }

  /** The hypothesis on names, as a condition on the Ingress. */
  lemma FrontWellNamed(env: Env, cluster: Cluster, ing: Ingress)
    requires GoodHash(env.gen) && ServicesFit(cluster) && EntriesApart(env, ing.rules) && Front(env, cluster, ing).Success?
    ensures WellNamed(Front(env, cluster, ing).value) <==> ListenersApart(env, ing)
  {
    hide Front, Sanitized, Kept, IsListenerNameOf;
    var front := Front(env, cluster, ing).value;
    forall m ensures Key(Listeners, m) in front <==> IsListenerNameOf(env, ing, m) {
      FrontListenerKeys(env, cluster, ing, m);
    }
    forall m, n ensures Slot(Key(Listeners, m)) == Slot(Key(Listeners, n)) <==> Kept(m) == Kept(n) {
      SanitizedSame(m, n);
    }
    if WellNamed(front) {
      forall m, n | IsListenerNameOf(env, ing, m) && IsListenerNameOf(env, ing, n) && Kept(m) == Kept(n) ensures m == n {
        assert Key(Listeners, m) in front && Key(Listeners, n) in front;
        assert Slot(Key(Listeners, m)) == Slot(Key(Listeners, n));
      }
    }
    if ListenersApart(env, ing) {
      forall a, b | a in front && b in front && Slot(a) == Slot(b) ensures a == b {
        assert a.kind == b.kind;
        if a.kind == Listeners {
          assert a == Key(Listeners, a.name) && b == Key(Listeners, b.name);
        }
      }
    }
  }

  // ---------------------------------------------------------------------------------------------
  // Certificates

  /** TLS hosts whose certificates get the same name have the same certificate. */
  ghost predicate CertificatesApart(cluster: Cluster, ing: Ingress) {
    forall a, b | SslFor(cluster, ing, a).Some? && SslFor(cluster, ing, b).Some?
        && SslFor(cluster, ing, a).value.certificateName == SslFor(cluster, ing, b).value.certificateName ::
      CertificateOf(cluster, ing, a) == CertificateOf(cluster, ing, b)
  }

  /** Names of secrets hold no underscore, as Kubernetes demands of object names. */
  predicate PlainSecrets(ing: Ingress) {
    forall host <- HostsWithTls(ing.tls) :: '_' !in HostsWithTls(ing.tls)[host]
  }

  lemma HeadsEqual(a: string, x: string, b: string, y: string)
    requires '_' !in a && '_' !in b && a + ("_" + x) == b + ("_" + y)
    ensures a == b
  {
    var s := a + ("_" + x);
    assert s[|a|] == '_' && s[|b|] == '_';
    assert forall i | 0 <= i < |a| :: s[i] == a[i];
    assert forall i | 0 <= i < |b| :: s[i] == b[i];
    assert s[..|a|] == a && s[..|b|] == b;
  }

  /** The name follows the certificate: within a namespace it is that of one secret, and of one id. */
  lemma SameSecret(namespace: string, a: string, x: Bundle, b: string, y: Bundle)
    requires '_' !in a && '_' !in b && CertificateName(namespace, a, x) == CertificateName(namespace, b, y)
    ensures a == b && x.id == y.id
  {
    var head := namespace + "_";
    assert CertificateName(namespace, a, x) == head + (a + ("_" + x.id));
    assert CertificateName(namespace, b, y) == head + (b + ("_" + y.id));
    assert a + ("_" + x.id) == (head + (a + ("_" + x.id)))[|head|..];
    assert b + ("_" + y.id) == (head + (b + ("_" + y.id)))[|head|..];
    HeadsEqual(a, x.id, b, y.id);
    assert x.id == (a + ("_" + x.id))[|a| + 1..];
    assert y.id == (b + ("_" + y.id))[|b| + 1..];
  }

  lemma PlainSecretsApart(cluster: Cluster, ing: Ingress)
    requires PlainSecrets(ing)
    ensures CertificatesApart(cluster, ing)
  {
    forall a, b | SslFor(cluster, ing, a).Some? && SslFor(cluster, ing, b).Some?
        && SslFor(cluster, ing, a).value.certificateName == SslFor(cluster, ing, b).value.certificateName
      ensures CertificateOf(cluster, ing, a) == CertificateOf(cluster, ing, b)
    {
      var tls := HostsWithTls(ing.tls);
      SameSecret(ing.namespace, tls[a], cluster.secrets[tls[a]], tls[b], cluster.secrets[tls[b]]);
    }
  }

  /** A certificate in the tables is that of every host it is named after. */
  ghost predicate IsRightCertificate(cluster: Cluster, ing: Ingress, k: Key, r: Option<Resource>) {
    k.kind == Certificates && r.Some? ==>
      forall host | SslFor(cluster, ing, host).Some? && SslFor(cluster, ing, host).value.certificateName == k.name ::
        r.value == CertificateOf(cluster, ing, host)
  }

  lemma RuleCertificate(env: Env, cluster: Cluster, ing: Ingress, s: Store, rule: IngressRule, k: Key)
    requires GoodHash(env.gen) && ServicesFit(cluster) && AddRule(env, cluster, ing, s, rule).Success? && k.kind == Certificates
    ensures rule.host in HostsWithTls(ing.tls) ==> SslFor(cluster, ing, rule.host).Some?
    ensures var ssl := SslFor(cluster, ing, rule.host);
      At(AddRule(env, cluster, ing, s, rule).value, k)
      == if k !in s && ssl.Some? && ssl.value.certificateName == k.name then Some(CertificateOf(cluster, ing, rule.host)) else At(s, k)
  {
    hide ListenerName, IsListenerName, IsPolicyName, HttpRules, HostListener, RoutingPolicyName, HostnameName, CertificateOf;
    SslOfHost(cluster, ing, s, rule.host);
    var (ssl, s1) := AddCertificate(cluster, ing, s, rule.host).value;
    assert At(AddHostname(env, s1, rule.host), k) == At(s1, k);
  }

  lemma {:induction false} CertificatesRight(env: Env, cluster: Cluster, ing: Ingress, n: nat, k: Key)
    requires GoodHash(env.gen) && ServicesFit(cluster) && CertificatesApart(cluster, ing) && k.kind == Certificates
    requires n <= |ing.rules| && AddRules(env, cluster, ing, n).Success?
    ensures IsRightCertificate(cluster, ing, k, At(AddRules(env, cluster, ing, n).value, k))
  {
    hide AddRule, SslFor;
    if n > 0 {
      CertificatesRight(env, cluster, ing, n - 1, k);
      RuleCertificate(env, cluster, ing, AddRules(env, cluster, ing, n - 1).value, ing.rules[n - 1], k);
    }
  }

  lemma {:induction false} CertificateThere(env: Env, cluster: Cluster, ing: Ingress, n: nat, host: string, k: Key)
    requires GoodHash(env.gen) && ServicesFit(cluster) && k.kind == Certificates
    requires n <= |ing.rules| && AddRules(env, cluster, ing, n).Success? && HasHost(ing.rules[..n], host)
    ensures host in HostsWithTls(ing.tls) ==> SslFor(cluster, ing, host).Some?
    ensures var ssl := SslFor(cluster, ing, host);
      ssl.Some? && ssl.value.certificateName == k.name ==> k in AddRules(env, cluster, ing, n).value
  {
    hide AddRule, SslFor;
    var s := AddRules(env, cluster, ing, n - 1).value;
    HasHostStep(ing.rules, n - 1, host);
    RuleCertificate(env, cluster, ing, s, ing.rules[n - 1], k);
    if ing.rules[n - 1].host != host { CertificateThere(env, cluster, ing, n - 1, host, k); }
    assert At(AddRules(env, cluster, ing, n).value, k) == At(AddRule(env, cluster, ing, s, ing.rules[n - 1]).value, k);
  }

  lemma LaterCertificates(env: Env, cluster: Cluster, ing: Ingress, k: Key)
    requires GoodHash(env.gen) && ServicesFit(cluster) && Front(env, cluster, ing).Success? && k.kind == Certificates
    requires k in AddRules(env, cluster, ing, |ing.rules|).value ==> AddRules(env, cluster, ing, |ing.rules|).value[k].Certificate?
    ensures At(Front(env, cluster, ing).value, k) == At(AddRules(env, cluster, ing, |ing.rules|).value, k)
  {
    hide AddRules, Redirector;
  }

  /** The certificate of a TLS host of a rule is in the tables. */
  lemma FrontCertificate(env: Env, cluster: Cluster, ing: Ingress, rule: IngressRule)
    requires GoodHash(env.gen) && ServicesFit(cluster) && CertificatesApart(cluster, ing) && Front(env, cluster, ing).Success?
    requires rule in ing.rules && rule.host in HostsWithTls(ing.tls)
    ensures SslFor(cluster, ing, rule.host).Some?
    ensures At(Front(env, cluster, ing).value, Key(Certificates, SslFor(cluster, ing, rule.host).value.certificateName))
         == Some(CertificateOf(cluster, ing, rule.host))
    ensures HasCertificateFor(cluster, ing, rule.host, Front(env, cluster, ing).value)
  {
    hide AddRules, SslFor, CertificateOf, HasCertificateFor;
    assert ing.rules[..|ing.rules|] == ing.rules;
    CertificateThere(env, cluster, ing, |ing.rules|, rule.host, Key(Certificates, ""));
    MadeCertificate(cluster, ing, rule.host, Front(env, cluster, ing).value);
    var k := Key(Certificates, SslFor(cluster, ing, rule.host).value.certificateName);
    CertificateThere(env, cluster, ing, |ing.rules|, rule.host, k);
    CertificatesRight(env, cluster, ing, |ing.rules|, k);
    IsACertificate(cluster, ing, rule.host);
    LaterCertificates(env, cluster, ing, k);
  }

  lemma MadeCertificate(cluster: Cluster, ing: Ingress, host: string, t: Store)
    requires SslFor(cluster, ing, host).Some?
    ensures At(t, Key(Certificates, SslFor(cluster, ing, host).value.certificateName)) == Some(CertificateOf(cluster, ing, host)) ==>
      HasCertificateFor(cluster, ing, host, t)
  {
    LastEntryWins(ing.tls, host);
    var secret := HostsWithTls(ing.tls)[host];
    assert IsSecretOf(ing.tls, host, secret);
  }

  lemma IsACertificate(cluster: Cluster, ing: Ingress, host: string)
    requires SslFor(cluster, ing, host).Some?
    ensures CertificateOf(cluster, ing, host).Certificate?
  {
  }

  /** The hostname entry of a rule host is in the tables, with that host. */
  lemma FrontEntry(env: Env, cluster: Cluster, ing: Ingress, rule: IngressRule)
    requires GoodHash(env.gen) && ServicesFit(cluster) && EntriesApart(env, ing.rules) && Front(env, cluster, ing).Success?
    requires rule in ing.rules && rule.host != ""
    ensures At(Front(env, cluster, ing).value, Key(Hostnames, HostnameName(env.gen, rule.host))) == Some(Hostname(rule.host))
  {
    hide AddRules, HostnameName, AddDefault;
    var k := Key(Hostnames, HostnameName(env.gen, rule.host));
    var i :| 0 <= i < |ing.rules| && ing.rules[i] == rule;
    assert HostEntry(env, ing, |ing.rules|, k.name);
    HostEntries(env, cluster, ing, |ing.rules|, k.name);
    RulesEntries(env, cluster, ing, |ing.rules|);
    var s := AddRules(env, cluster, ing, |ing.rules|).value;
    assert OwnEntry(env, ing.rules, k, At(s, k));
    LaterEntries(env, cluster, ing, s, k);
  }

  lemma LaterEntries(env: Env, cluster: Cluster, ing: Ingress, s: Store, k: Key)
    requires GoodHash(env.gen) && ServicesFit(cluster) && AddDefault(env, cluster, ing, s).Success?
    requires k.kind == Hostnames && k in s && s[k].Hostname?
    ensures At(AddRedirector(env, ing, AddDefault(env, cluster, ing, s).value), k) == At(s, k)
  {
    hide Redirector, Redirects;
  }

  /** A certificate in the tables is named after a TLS host of a rule. */
  lemma {:induction false} CertificateOrigin(env: Env, cluster: Cluster, ing: Ingress, n: nat, k: Key) returns (rule: IngressRule)
    requires GoodHash(env.gen) && ServicesFit(cluster) && k.kind == Certificates
    requires n <= |ing.rules| && AddRules(env, cluster, ing, n).Success? && k in AddRules(env, cluster, ing, n).value
    ensures rule in ing.rules && SslFor(cluster, ing, rule.host).Some?
    ensures SslFor(cluster, ing, rule.host).value.certificateName == k.name
  {
    hide AddRule, SslFor;
    rule := ing.rules[n - 1];
    var s := AddRules(env, cluster, ing, n - 1).value;
    RuleCertificate(env, cluster, ing, s, rule, k);
    assert At(AddRules(env, cluster, ing, n).value, k) == At(AddRule(env, cluster, ing, s, rule).value, k);
    if k in s { rule := CertificateOrigin(env, cluster, ing, n - 1, k); }
  }

  /** The certificates found under the names of the Ingress's certificates are those certificates. */
  predicate CertificatesFit(cluster: Cluster, ing: Ingress, lb: Store) {
    forall rule <- ing.rules :: CertificateFits(cluster, ing, rule.host, lb)
  }

  predicate CertificateFits(cluster: Cluster, ing: Ingress, host: string, lb: Store) {
    var ssl := SslFor(cluster, ing, host);
    ssl.Some? && Key(Certificates, ssl.value.certificateName) in lb ==>
      lb[Key(Certificates, ssl.value.certificateName)] == CertificateOf(cluster, ing, host)
  }

  lemma SslOfTlsHost(cluster: Cluster, ing: Ingress, host: string)
    requires SslFor(cluster, ing, host).Some?
    ensures host in HostsWithTls(ing.tls)
  {
  }

  /** The certificate under a name in the front tables, from the side of the tables and from that of the Ingress. */
  lemma FrontCertificateAt(env: Env, cluster: Cluster, ing: Ingress, k: Key) returns (rule: IngressRule)
    requires GoodHash(env.gen) && ServicesFit(cluster) && CertificatesApart(cluster, ing) && Front(env, cluster, ing).Success?
    requires k.kind == Certificates && k in Front(env, cluster, ing).value
    ensures rule in ing.rules && SslFor(cluster, ing, rule.host).Some?
    ensures k == Key(Certificates, SslFor(cluster, ing, rule.host).value.certificateName)
    ensures Front(env, cluster, ing).value[k] == CertificateOf(cluster, ing, rule.host)
  {
    hide AddRules, SslFor, CertificateOf;
    FrontCertificateKeys(env, cluster, ing, k);
    rule := CertificateOrigin(env, cluster, ing, |ing.rules|, k);
    SslOfTlsHost(cluster, ing, rule.host);
    hide Front;
    FrontCertificate(env, cluster, ing, rule);
  }

  lemma FrontCertificateKeys(env: Env, cluster: Cluster, ing: Ingress, k: Key)
    requires GoodHash(env.gen) && ServicesFit(cluster) && Front(env, cluster, ing).Success? && k.kind == Certificates
    ensures k in Front(env, cluster, ing).value <==> k in AddRules(env, cluster, ing, |ing.rules|).value
  {
    hide AddRules, Redirector;
  }

  // ---------------------------------------------------------------------------------------------
  // Certificates that are renewed

  /** `name` is made of the namespace, a secret and an id. */
  predicate IsNamed(name: string, namespace: string, secret: string, id: string) {
    '_' !in secret && name == namespace + "_" + secret + "_" + id
  }

  /** A certificate found under a name of the namespace has the public parts of a known bundle with the id in the name. */
  ghost predicate CertificatesKnown(namespace: string, t: Store, known: set<Bundle>) {
    forall k <- t, secret, id | k.kind == Certificates && IsNamed(k.name, namespace, secret, id) :: IsKnown(t[k], id, known)
  }

  ghost predicate IsKnown(r: Resource, id: string, known: set<Bundle>) {
    exists b <- known :: b.id == id && r == Certificate(b.publicPem, b.caPem)
  }

  /** Ids tell contents apart, as serial numbers and digests do. */
  ghost predicate IdsTell(known: set<Bundle>) {
    forall a, b | a in known && b in known && a.id == b.id :: a.publicPem == b.publicPem && a.caPem == b.caPem
  }

  /** The name made for a TLS host has that form. */
  lemma NameOfHost(cluster: Cluster, ing: Ingress, host: string) returns (secret: string)
    requires PlainSecrets(ing) && SslFor(cluster, ing, host).Some?
    ensures secret in cluster.secrets && IsSecretOf(ing.tls, host, secret)
    ensures IsNamed(SslFor(cluster, ing, host).value.certificateName, ing.namespace, secret, cluster.secrets[secret].id)
    ensures CertificateOf(cluster, ing, host) == Certificate(cluster.secrets[secret].publicPem, cluster.secrets[secret].caPem)
  {
    LastEntryWins(ing.tls, host);
    secret := HostsWithTls(ing.tls)[host];
    assert IsSecretOf(ing.tls, host, secret);
  }

  /**
   Rotation: if whatever is found in the load balancer came from known bundles and ids tell their contents apart, no certificate
   of the Ingress meets other contents under its name, whichever of the bundles its secrets hold now.
   */
  lemma RotationFits(cluster: Cluster, ing: Ingress, lb: Store, known: set<Bundle>)
    requires PlainSecrets(ing) && cluster.secrets.Values <= known && IdsTell(known)
    requires CertificatesKnown(ing.namespace, lb, known)
    ensures CertificatesFit(cluster, ing, lb)
  {
    forall rule | rule in ing.rules ensures CertificateFits(cluster, ing, rule.host, lb) {
      CertificateRotates(cluster, ing, rule.host, lb, known);
    }
  }

  lemma CertificateRotates(cluster: Cluster, ing: Ingress, host: string, lb: Store, known: set<Bundle>)
    requires PlainSecrets(ing) && cluster.secrets.Values <= known && IdsTell(known)
    requires CertificatesKnown(ing.namespace, lb, known)
    ensures CertificateFits(cluster, ing, host, lb)
  {
    hide SslFor, CertificateOf, IsNamed, IsSecretOf, PlainSecrets;
    if SslFor(cluster, ing, host).Some? {
      var secret := NameOfHost(cluster, ing, host);
      var bundle := cluster.secrets[secret];
      assert bundle in cluster.secrets.Values;
      var k := Key(Certificates, SslFor(cluster, ing, host).value.certificateName);
      if k in lb {
        assert IsKnown(lb[k], bundle.id, known);
        var b :| b in known && b.id == bundle.id && lb[k] == Certificate(b.publicPem, b.caPem);
      }
    }
  }

  /** A renewed certificate, whose id was not known before, gets a key the load balancer does not hold. */
  lemma RenewedIsNew(cluster: Cluster, ing: Ingress, host: string, secret: string, lb: Store, before: set<Bundle>)
    requires PlainSecrets(ing) && SslFor(cluster, ing, host).Some? && CertificatesKnown(ing.namespace, lb, before)
    requires IsSecretOf(ing.tls, host, secret) && secret in cluster.secrets && forall b <- before :: b.id != cluster.secrets[secret].id
    ensures Key(Certificates, SslFor(cluster, ing, host).value.certificateName) !in lb
  {
    var k := Key(Certificates, SslFor(cluster, ing, host).value.certificateName);
    LastEntryWins(ing.tls, host);
    var used := NameOfHost(cluster, ing, host);
    assert used == secret;
    hide SslFor, IsNamed, IsSecretOf, PlainSecrets;
    assert k in lb ==> IsKnown(lb[k], cluster.secrets[secret].id, before);
  }

  /** The certificates the compiler makes come from the bundles the secrets hold. */
  lemma FrontKnown(env: Env, cluster: Cluster, ing: Ingress, known: set<Bundle>, k: Key, secret: string, id: string)
    requires GoodHash(env.gen) && ServicesFit(cluster) && PlainSecrets(ing) && Front(env, cluster, ing).Success?
    requires cluster.secrets.Values <= known && k.kind == Certificates && k in Front(env, cluster, ing).value
    requires IsNamed(k.name, ing.namespace, secret, id)
    ensures IsKnown(Front(env, cluster, ing).value[k], id, known)
  {
    PlainSecretsApart(cluster, ing);
    hide Front, SslFor, CertificateOf, PlainSecrets, CertificatesApart;
    var rule := FrontCertificateAt(env, cluster, ing, k);
    var own := NameOfHost(cluster, ing, rule.host);
    var bundle := cluster.secrets[own];
    assert bundle in cluster.secrets.Values;
    SameSecret(ing.namespace, secret, Bundle(id, "", ""), own, bundle);
    assert bundle in known && bundle.id == id;
  }
}
