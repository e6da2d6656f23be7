/** No dangling names: every resource the compiled tables mention is in the compiled tables. */
module SpecClosure {
  import opened Wrappers
  import opened Names
  import opened SortedSets
  import opened Tables
  import RoutingRules
  import opened SpecCompiler

  /** `names` are the backend sets still to be added. */
  ghost predicate Allowed(s: Store, names: iset<string>, ref: Key) {
    ref in s || (ref.kind == BackendSets && ref.name in names)
  }

  ghost predicate FrontClosed(s: Store, names: iset<string>) {
    forall k <- s :: k.kind != BackendSets && s[k].Kind() == k.kind && forall ref <- s[k].Refs() :: Allowed(s, names, ref)
  }

  ghost predicate IsUsedSetName(env: Env, cluster: Cluster, ing: Ingress, name: string)
    requires GoodHash(env.gen) && ServicesFit(cluster)
  {
    || name == DUMMY
    || exists svc <- Services(ing) :: svc in cluster.services && IsSetName(env, cluster.services[svc], name)
  }

  /** The names of all backend sets of the services an Ingress uses, and the dummy. */
  ghost function AllSetNames(env: Env, cluster: Cluster, ing: Ingress): iset<string>
    requires GoodHash(env.gen) && ServicesFit(cluster)
  {
    iset name | IsUsedSetName(env, cluster, ing, name)
  }

  lemma PutKeepsClosed(s: Store, names: iset<string>, k: Key, r: Resource)
    requires FrontClosed(s, names) && k.kind != BackendSets && r.Kind() == k.kind && forall ref <- r.Refs() :: Allowed(s, names, ref)
    ensures FrontClosed(s[k := r], names)
  {
    var t := s[k := r];
    forall j | j in t ensures j.kind != BackendSets && t[j].Kind() == j.kind && forall ref <- t[j].Refs() :: Allowed(t, names, ref) {
      forall ref | ref in t[j].Refs() ensures Allowed(t, names, ref) {
        assert Allowed(s, names, ref);
      }
    }
  }

  lemma ServicesOfPathsHas(paths: seq<IngressPath>, i: nat)
    requires i < |paths|
    ensures ServicesOf(paths[i].backend) <= ServicesOfPaths(paths)
  {
    if i < |paths| - 1 {
      ServicesOfPathsHas(paths[..|paths| - 1], i);
    }
  }

  lemma ServicesOfRulesHas(rules: seq<IngressRule>, i: nat)
    requires i < |rules| && rules[i].http.Some?
    ensures ServicesOfPaths(rules[i].http.value) <= ServicesOfRules(rules)
  {
    if i < |rules| - 1 {
      ServicesOfRulesHas(rules[..|rules| - 1], i);
    }
  }

  lemma {:induction false} HttpRulesResolve(env: Env, cluster: Cluster, paths: seq<IngressPath>, host: string)
    requires GoodHash(env.gen) && ServicesFit(cluster) && HttpRules(env, cluster, paths, host).Success?
    ensures forall r <- HttpRules(env, cluster, paths, host).value ::
              exists i: nat :: i < |paths| && Resolve(env, cluster, paths[i].backend) == Success(r.backendSet)
  {
    if paths != [] {
      var init := paths[..|paths| - 1];
      HttpRulesResolve(env, cluster, init, host);
      forall r | r in HttpRules(env, cluster, paths, host).value
        ensures exists i: nat :: i < |paths| && Resolve(env, cluster, paths[i].backend) == Success(r.backendSet)
      {
        if r in HttpRules(env, cluster, init, host).value {
          var i: nat :| i < |init| && Resolve(env, cluster, init[i].backend) == Success(r.backendSet);
          assert paths[i] == init[i];
        } else {
          assert Resolve(env, cluster, paths[|paths| - 1].backend) == Success(r.backendSet);
        }
      }
    }
  }

  lemma ResolvedName(env: Env, cluster: Cluster, ing: Ingress, backend: RoutingRules.Backend)
    requires GoodHash(env.gen) && ServicesFit(cluster) && Resolve(env, cluster, backend).Success?
    requires ServicesOf(backend) <= Services(ing)
    ensures Resolve(env, cluster, backend).value in AllSetNames(env, cluster, ing)
  {
    ResolvedIsSet(env, cluster, backend);
    assert backend.service in Services(ing);
  }

  /** Every rule of the `n`-th Ingress rule forwards to a backend set that will exist. */
  lemma RulesForward(env: Env, cluster: Cluster, ing: Ingress, n: nat)
    requires GoodHash(env.gen) && ServicesFit(cluster) && n < |ing.rules| && ing.rules[n].http.Some?
    requires HttpRules(env, cluster, ing.rules[n].http.value, ing.rules[n].host).Success?
    ensures forall r <- HttpRules(env, cluster, ing.rules[n].http.value, ing.rules[n].host).value ::
              r.backendSet in AllSetNames(env, cluster, ing)
  {
    var paths := ing.rules[n].http.value;
    HttpRulesResolve(env, cluster, paths, ing.rules[n].host);
    ServicesOfRulesHas(ing.rules, n);
    forall r | r in HttpRules(env, cluster, paths, ing.rules[n].host).value
      ensures r.backendSet in AllSetNames(env, cluster, ing)
    {
      var i: nat :| i < |paths| && Resolve(env, cluster, paths[i].backend) == Success(r.backendSet);
      ServicesOfPathsHas(paths, i);
      ResolvedName(env, cluster, ing, paths[i].backend);
    }
  }

  lemma PolicyKeepsClosed(s: Store, names: iset<string>, name: string, rules: seq<Rule>)
    requires FrontClosed(s, names) && forall r <- rules :: r.backendSet in names
    ensures FrontClosed(AddPolicy(s, name, rules), names)
    ensures Key(RoutingPolicies, name) in AddPolicy(s, name, rules) && s.Keys <= AddPolicy(s, name, rules).Keys
  {
    var k := Key(RoutingPolicies, name);
    var all := if k in s && s[k].RoutingPolicy? then s[k].rules + rules else rules;
    forall ref | ref in RoutingPolicy("V1", all).Refs() ensures Allowed(s, names, ref) {
      var r :| r in all && ref == Key(BackendSets, r.backendSet);
      if r !in rules { assert Key(BackendSets, r.backendSet) in s[k].Refs(); }
    }
    PutKeepsClosed(s, names, k, RoutingPolicy("V1", all));
  }

  /** The last step of a round: the listener of the host. */
  lemma ListenerKeepsClosed(env: Env, s: Store, names: iset<string>, host: string, ssl: Option<Ssl>, name: string)
    requires GoodHash(env.gen) && FrontClosed(s, names) && DUMMY in names
    requires host != "" ==> Key(Hostnames, HostnameName(env.gen, host)) in s
    requires ssl.Some? ==> Key(Certificates, ssl.value.certificateName) in s
    requires Key(RoutingPolicies, RoutingPolicyName(env.gen, host)) in s
    ensures FrontClosed(s[Key(Listeners, name) := HostListener(env, host, ssl)], names)
  {
    PutKeepsClosed(s, names, Key(Listeners, name), HostListener(env, host, ssl));
  }

  lemma HostnameKeepsClosed(env: Env, s: Store, names: iset<string>, host: string)
    requires GoodHash(env.gen) && FrontClosed(s, names)
    ensures var t := AddHostname(env, s, host);
      FrontClosed(t, names) && s.Keys <= t.Keys && (host != "" ==> Key(Hostnames, HostnameName(env.gen, host)) in t)
  {
    if host != "" { PutKeepsClosed(s, names, Key(Hostnames, HostnameName(env.gen, host)), Hostname(host)); }
  }

  lemma CertificateKeepsClosed(cluster: Cluster, ing: Ingress, s: Store, names: iset<string>, host: string)
    requires FrontClosed(s, names) && AddCertificate(cluster, ing, s, host).Success?
    ensures var (ssl, t) := AddCertificate(cluster, ing, s, host).value;
      FrontClosed(t, names) && s.Keys <= t.Keys && (ssl.Some? ==> Key(Certificates, ssl.value.certificateName) in t)
  {
    var (ssl, t) := AddCertificate(cluster, ing, s, host).value;
    if ssl.Some? {
      var bundle := cluster.secrets[HostsWithTls(ing.tls)[host]];
      PutKeepsClosed(s, names, Key(Certificates, ssl.value.certificateName), Certificate(bundle.publicPem, bundle.caPem));
    }
  }

  lemma NothingIsClosed(names: iset<string>)
    ensures FrontClosed(map[], names)
  {
  }

  lemma {:induction false} RulesKeepClosed(env: Env, cluster: Cluster, ing: Ingress, n: nat)
    requires GoodHash(env.gen) && ServicesFit(cluster) && n <= |ing.rules| && AddRules(env, cluster, ing, n).Success?
    ensures FrontClosed(AddRules(env, cluster, ing, n).value, AllSetNames(env, cluster, ing))
  {
    hide AddRule, FrontClosed, AllSetNames;
    if n == 0 {
      NothingIsClosed(AllSetNames(env, cluster, ing));
    } else {
      RulesKeepClosed(env, cluster, ing, n - 1);
      RuleKeepsClosed(env, cluster, ing, AddRules(env, cluster, ing, n - 1).value, n - 1);
    }
  }

  lemma RuleKeepsClosed(env: Env, cluster: Cluster, ing: Ingress, s: Store, n: nat)
    requires GoodHash(env.gen) && ServicesFit(cluster) && n < |ing.rules| && AddRule(env, cluster, ing, s, ing.rules[n]).Success?
    requires FrontClosed(s, AllSetNames(env, cluster, ing))
    ensures FrontClosed(AddRule(env, cluster, ing, s, ing.rules[n]).value, AllSetNames(env, cluster, ing))
  {
    var names, rule := AllSetNames(env, cluster, ing), ing.rules[n];
    RulesForward(env, cluster, ing, n);
    var rules := HttpRules(env, cluster, rule.http.value, rule.host).value;
    CertificateKeepsClosed(cluster, ing, s, names, rule.host);
    var (ssl, s1) := AddCertificate(cluster, ing, s, rule.host).value;
    HostnameKeepsClosed(env, s1, names, rule.host);
    var s2 := AddHostname(env, s1, rule.host);
    PolicyKeepsClosed(s2, names, RoutingPolicyName(env.gen, rule.host), rules);
    var s3 := AddPolicy(s2, RoutingPolicyName(env.gen, rule.host), rules);
    ListenerKeepsClosed(env, s3, names, rule.host, ssl, ListenerName(env.gen, EntryHost(env, s2, rule.host)));
  }

  lemma AppendKeepsClosed(s: Store, names: iset<string>, r: Rule)
    requires FrontClosed(s, names) && r.backendSet in names
    ensures FrontClosed(AppendToPolicies(s, r), names)
  {
    var t := AppendToPolicies(s, r);
    forall k | k in t ensures k.kind != BackendSets && t[k].Kind() == k.kind && forall ref <- t[k].Refs() :: Allowed(t, names, ref) {
      forall ref | ref in t[k].Refs() ensures Allowed(t, names, ref) {
        if ref != Key(BackendSets, r.backendSet) || !s[k].RoutingPolicy? {
          assert ref in s[k].Refs();
          assert Allowed(s, names, ref);
        }
      }
    }
  }

  lemma DefaultKeepsClosed(env: Env, cluster: Cluster, ing: Ingress, s: Store)
    requires GoodHash(env.gen) && ServicesFit(cluster) && AddDefault(env, cluster, ing, s).Success?
    requires FrontClosed(s, AllSetNames(env, cluster, ing))
    ensures FrontClosed(AddDefault(env, cluster, ing, s).value, AllSetNames(env, cluster, ing))
  {
    var names := AllSetNames(env, cluster, ing);
    if ing.defaultBackend.None? {
      PlainKeepsClosed(s, names, CATCH_ALL, DUMMY);
    } else {
      var backendSet := Resolve(env, cluster, ing.defaultBackend.value).value;
      ResolvedName(env, cluster, ing, ing.defaultBackend.value);
      PlainKeepsClosed(s, names, DEFAULT_BACKEND, backendSet);
      AppendKeepsClosed(s[Key(Listeners, DEFAULT_BACKEND) := PlainListener(backendSet)], names, DefaultRule(backendSet));
    }
  }

  lemma PlainKeepsClosed(s: Store, names: iset<string>, name: string, backendSet: string)
    requires FrontClosed(s, names) && backendSet in names
    ensures FrontClosed(s[Key(Listeners, name) := PlainListener(backendSet)], names)
  {
    PutKeepsClosed(s, names, Key(Listeners, name), PlainListener(backendSet));
  }

  // ---------------------------------------------------------------------------------------------
  // Hostname entries

  /** The hostname entries made for the hosts of the first `n` rules. */
  ghost predicate HostEntry(env: Env, ing: Ingress, n: nat, name: string)
    requires GoodHash(env.gen) && n <= |ing.rules|
  {
    exists i: nat :: i < n && ing.rules[i].host != "" && HostnameName(env.gen, ing.rules[i].host) == name
  }

  lemma RuleHostEntry(env: Env, cluster: Cluster, ing: Ingress, s: Store, rule: IngressRule, name: string)
    requires GoodHash(env.gen) && ServicesFit(cluster) && AddRule(env, cluster, ing, s, rule).Success?
    ensures Key(Hostnames, name) in AddRule(env, cluster, ing, s, rule).value
            <==> Key(Hostnames, name) in s || (rule.host != "" && HostnameName(env.gen, rule.host) == name)
  {
    hide ListenerName, IsListenerName, IsPolicyName, HttpRules, HostListener, RoutingPolicyName;
    var (ssl, s1) := AddCertificate(cluster, ing, s, rule.host).value;
    assert Key(Hostnames, name) in s1 <==> Key(Hostnames, name) in s;
  }

  lemma NoEntryYet(env: Env, ing: Ingress, name: string)
    requires GoodHash(env.gen)
    ensures !HostEntry(env, ing, 0, name)
  {
  }

  lemma {:induction false} HostEntries(env: Env, cluster: Cluster, ing: Ingress, n: nat, name: string)
    requires GoodHash(env.gen) && ServicesFit(cluster) && n <= |ing.rules| && AddRules(env, cluster, ing, n).Success?
    ensures Key(Hostnames, name) in AddRules(env, cluster, ing, n).value <==> HostEntry(env, ing, n, name)
  {
    hide AddRule, HostEntry, HostnameName;
    if n == 0 {
      NoEntryYet(env, ing, name);
    } else {
      HostEntries(env, cluster, ing, n - 1, name);
      RuleHostEntry(env, cluster, ing, AddRules(env, cluster, ing, n - 1).value, ing.rules[n - 1], name);
      HostEntryStep(env, ing, n - 1, name);
    }
  }

  lemma HostEntryStep(env: Env, ing: Ingress, n: nat, name: string)
    requires GoodHash(env.gen) && n < |ing.rules|
    ensures HostEntry(env, ing, n + 1, name)
            <==> HostEntry(env, ing, n, name) || (ing.rules[n].host != "" && HostnameName(env.gen, ing.rules[n].host) == name)
  {
  }

  lemma DefaultHostEntries(env: Env, cluster: Cluster, ing: Ingress, name: string)
    requires GoodHash(env.gen) && ServicesFit(cluster) && Front(env, cluster, ing).Success?
    ensures Key(Hostnames, name) in AddDefault(env, cluster, ing, AddRules(env, cluster, ing, |ing.rules|).value).value
            <==> HostEntry(env, ing, |ing.rules|, name)
  {
    hide AddRules, HostEntry;
    HostEntries(env, cluster, ing, |ing.rules|, name);
  }

  // ---------------------------------------------------------------------------------------------
  // The result

  /** The compiled tables: the front tables, and backend sets for the services used and the dummy. */
  ghost predicate IsSpec(env: Env, cluster: Cluster, ing: Ingress, spec: Store)
    requires GoodHash(env.gen) && ServicesFit(cluster)
  {
    && Front(env, cluster, ing).Success?
    && (forall k: Key :: k.kind != BackendSets ==> At(spec, k) == At(Front(env, cluster, ing).value, k))
    && (forall k: Key :: k.kind == BackendSets ==>
          (k in spec <==> k.name in AllSetNames(env, cluster, ing)) && (k in spec ==> spec[k].BackendSet?))
  }

  /** A caller can see beforehand whether the redirecting listener will name hostname entries that exist. */
  ghost predicate TlsHostsListed(env: Env, ing: Ingress)
    requires GoodHash(env.gen)
  {
    Redirects(env, ing) ==> forall host <- HostsWithTls(ing.tls) :: HostEntry(env, ing, |ing.rules|, host)
  }

  lemma FrontIsClosed(env: Env, cluster: Cluster, ing: Ingress)
    requires GoodHash(env.gen) && ServicesFit(cluster) && Front(env, cluster, ing).Success?
    ensures var s := AddDefault(env, cluster, ing, AddRules(env, cluster, ing, |ing.rules|).value).value;
      FrontClosed(s, AllSetNames(env, cluster, ing)) && Front(env, cluster, ing).value == AddRedirector(env, ing, s)
  {
    hide AddRules;
    RulesKeepClosed(env, cluster, ing, |ing.rules|);
    DefaultKeepsClosed(env, cluster, ing, AddRules(env, cluster, ing, |ing.rules|).value);
  }

  lemma FrontHasNoSets(env: Env, cluster: Cluster, ing: Ingress)
    requires GoodHash(env.gen) && ServicesFit(cluster) && Front(env, cluster, ing).Success?
    ensures forall k <- Front(env, cluster, ing).value :: k.kind != BackendSets
  {
    hide AddRules, AddDefault;
    FrontIsClosed(env, cluster, ing);
  }

  /** Only the redirecting listener can leave a name dangling. */
  lemma RedirectorRefs(env: Env, ing: Ingress, s: Store, names: iset<string>)
    requires FrontClosed(s, names) && DUMMY in names
    ensures var t := AddRedirector(env, ing, s);
      FrontClosed(t, names) <==> (Redirects(env, ing) ==> forall host <- HostsWithTls(ing.tls) :: Key(Hostnames, host) in s)
  {
    if Redirects(env, ing) {
      var ruleSet := RuleSet(["redirect / to https, port 443, code 308"]);
      PutKeepsClosed(s, names, Key(RuleSets, REDIRECTION), ruleSet);
      ListenerLast(s[Key(RuleSets, REDIRECTION) := ruleSet], names, Key(Listeners, REDIRECTOR), ing);
    }
  }

  lemma RedirectorNames(ing: Ingress, ref: Key)
    ensures ref in Redirector(ing).Refs() <==>
      || ref == Key(BackendSets, DUMMY) || ref == Key(RuleSets, REDIRECTION)
      || (ref.kind == Hostnames && ref.name in HostsWithTls(ing.tls))
  {
    AscendingMembers(HostsWithTls(ing.tls).Keys);
    OpenListenerNames(DUMMY, Ascending(HostsWithTls(ing.tls).Keys), REDIRECTION, ref);
  }

  lemma OpenListenerNames(backendSet: string, hostnames: seq<string>, ruleSet: string, ref: Key)
    ensures ref in Listener(backendSet, 80, "HTTP", None, None, hostnames, "", [ruleSet]).Refs() <==>
      || ref == Key(BackendSets, backendSet) || ref == Key(RuleSets, ruleSet)
      || (ref.kind == Hostnames && ref.name in hostnames)
  {
    assert ref.kind == Hostnames && ref.name in hostnames ==> ref == Key(Hostnames, ref.name);
  }

  lemma ListenerLast(s: Store, names: iset<string>, k: Key, ing: Ingress)
    requires FrontClosed(s, names) && DUMMY in names && k.kind == Listeners && Key(RuleSets, REDIRECTION) in s
    ensures FrontClosed(s[k := Redirector(ing)], names) <==> forall host <- HostsWithTls(ing.tls) :: Key(Hostnames, host) in s
  {
    var listener := Redirector(ing);
    forall ref ensures ref in listener.Refs() <==>
      || ref == Key(BackendSets, DUMMY) || ref == Key(RuleSets, REDIRECTION)
      || (ref.kind == Hostnames && ref.name in HostsWithTls(ing.tls))
    {
      RedirectorNames(ing, ref);
    }
    if forall host <- HostsWithTls(ing.tls) :: Key(Hostnames, host) in s {
      PutKeepsClosed(s, names, k, listener);
    }
    if FrontClosed(s[k := listener], names) {
      forall host | host in HostsWithTls(ing.tls) ensures Key(Hostnames, host) in s {
        ClosedAt(s[k := listener], names, k, Key(Hostnames, host));
      }
    }
  }

  lemma ClosedAt(t: Store, names: iset<string>, k: Key, ref: Key)
    requires FrontClosed(t, names) && k in t && ref in t[k].Refs()
    ensures Allowed(t, names, ref)
  {
  }

  /**
   Spec closure, and exactly when: the compiled tables are typed, and they name nothing that is missing if and only
   if no redirecting listener is made or every TLS host is the hostname entry of some rule host.
   */
  lemma SpecIsClosed(env: Env, cluster: Cluster, ing: Ingress, spec: Store)
    requires GoodHash(env.gen) && ServicesFit(cluster) && IsSpec(env, cluster, ing, spec)
    ensures Typed(spec) && (Closed(spec) <==> TlsHostsListed(env, ing))
  {
    var s := AddDefault(env, cluster, ing, AddRules(env, cluster, ing, |ing.rules|).value).value;
    FrontIsClosed(env, cluster, ing);
    forall host: string ensures Key(Hostnames, host) in s <==> HostEntry(env, ing, |ing.rules|, host) {
      DefaultHostEntries(env, cluster, ing, host);
    }
    CloseUp(env, ing, s, AllSetNames(env, cluster, ing), spec);
  }

  lemma CloseUp(env: Env, ing: Ingress, s: Store, names: iset<string>, spec: Store)
    requires GoodHash(env.gen) && FrontClosed(s, names) && DUMMY in names
    requires forall host: string :: Key(Hostnames, host) in s <==> HostEntry(env, ing, |ing.rules|, host)
    requires forall k: Key :: k.kind != BackendSets ==> At(spec, k) == At(AddRedirector(env, ing, s), k)
    requires forall k: Key :: k.kind == BackendSets ==> (k in spec <==> k.name in names) && (k in spec ==> spec[k].BackendSet?)
    ensures Typed(spec) && (Closed(spec) <==> TlsHostsListed(env, ing))
  {
    RedirectorRefs(env, ing, s, names);
    RedirectorKinds(env, ing, s, names);
    SpecMirrorsFront(AddRedirector(env, ing, s), names, spec);
  }

  lemma RedirectorKinds(env: Env, ing: Ingress, s: Store, names: iset<string>)
    requires FrontClosed(s, names)
    ensures var t := AddRedirector(env, ing, s); forall k <- t :: k.kind != BackendSets && t[k].Kind() == k.kind
  {
  }

  lemma SpecMirrorsFront(t: Store, names: iset<string>, spec: Store)
    requires forall k <- t :: k.kind != BackendSets && t[k].Kind() == k.kind
    requires forall k: Key :: k.kind != BackendSets ==> At(spec, k) == At(t, k)
    requires forall k: Key :: k.kind == BackendSets ==> (k in spec <==> k.name in names) && (k in spec ==> spec[k].BackendSet?)
    ensures Typed(spec) && (Closed(spec) <==> FrontClosed(t, names))
  {
    forall ref: Key ensures ref in spec <==> Allowed(t, names, ref) {
      assert At(spec, ref) == At(t, ref) || ref.kind == BackendSets;
    }
    forall k | k in spec ensures spec[k].Kind() == k.kind && (k.kind == BackendSets || (k in t && t[k] == spec[k])) {
      assert At(spec, k) == At(t, k) || k.kind == BackendSets;
    }
    forall k | k in t ensures k in spec && spec[k] == t[k] {
      assert At(spec, k) == At(t, k);
    }
  }

  /** An Ingress with a TLS host that is no rule host, and redirection on. */
  function StrayTlsHost(): Ingress {
    Ingress("default", [], [Tls(["stray.example"], "secret")], None, Success("ROUND_ROBIN"), "true", None, None)
  }

  lemma StrayRedirects(env: Env)
    ensures "stray.example" in HostsWithTls(StrayTlsHost().tls) && Redirects(env, StrayTlsHost())
  {
    var ing := StrayTlsHost();
    assert ing.tls[0].hosts[0] == "stray.example";
    assert "stray.example" in ing.tls[0].hosts;
  }

  lemma StrayCompiles(env: Env, cluster: Cluster)
    requires GoodHash(env.gen) && ServicesFit(cluster)
    ensures Front(env, cluster, StrayTlsHost()).Success? && AllSetNames(env, cluster, StrayTlsHost()) == iset{DUMMY}
  {
    assert Services(StrayTlsHost()) == {};
  }

  /** Its compiled tables exist and are not closed. */
  lemma StrayTlsHostDangles(env: Env, cluster: Cluster)
    requires GoodHash(env.gen) && ServicesFit(cluster)
    ensures Front(env, cluster, StrayTlsHost()).Success?
    ensures var spec := Front(env, cluster, StrayTlsHost()).value[Key(BackendSets, DUMMY) := DummySet("ROUND_ROBIN")];
      IsSpec(env, cluster, StrayTlsHost(), spec) && !Closed(spec)
  {
    var ing := StrayTlsHost();
    StrayRedirects(env);
    StrayCompiles(env, cluster);
    StrayUnlisted(env);
    hide Front, StrayTlsHost;
    FrontHasNoSets(env, cluster, ing);
    var spec := Front(env, cluster, ing).value[Key(BackendSets, DUMMY) := DummySet("ROUND_ROBIN")];
    WithOnlyDummy(env, cluster, ing, spec);
    SpecIsClosed(env, cluster, ing, spec);
  }

  lemma StrayUnlisted(env: Env)
    requires GoodHash(env.gen)
    ensures !TlsHostsListed(env, StrayTlsHost())
  {
    StrayRedirects(env);
    assert !HostEntry(env, StrayTlsHost(), 0, "stray.example");
  }

  lemma WithOnlyDummy(env: Env, cluster: Cluster, ing: Ingress, spec: Store)
    requires GoodHash(env.gen) && ServicesFit(cluster) && Front(env, cluster, ing).Success?
    requires AllSetNames(env, cluster, ing) == iset{DUMMY} && forall k <- Front(env, cluster, ing).value :: k.kind != BackendSets
    requires spec == Front(env, cluster, ing).value[Key(BackendSets, DUMMY) := DummySet("ROUND_ROBIN")]
    ensures IsSpec(env, cluster, ing, spec)
  {
    hide Front;
  }
}
