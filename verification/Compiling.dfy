/** When an Ingress compiles: exactly the conditions under which `NewIngressLBSpec` finds nothing to object to. */
module Compiling {
  import opened Wrappers
  import opened Names
  import opened Tables
  import RoutingRules
  import Globs
  import opened SpecCompiler
  import opened SpecBuilder
  import opened FrontTables
  import opened Serving

  /**
   A path whose condition can be printed: of a known type, and for patterns a custom condition, or what URL parsing takes
   for one of the known layouts.
   */
  predicate Prints(parse: RoutingRules.UrlParser, p: IngressPath) {
    match p.pathType
    case Exact => true
    case Prefix => true
    case ImplementationSpecific =>
      p.path != "" && (RoutingRules.IsCustom(p.path) || (parse(p.path).Success? && Globs.Classify(parse(p.path).value).Some?))
    case OtherType => false
  }

  lemma PrintsExactly(parse: RoutingRules.UrlParser, p: IngressPath, host: string)
    ensures RoutingRules.RuleCondition(parse, p, host).Success? <==> Prints(parse, p)
  {
    hide RoutingRules.Combine, RoutingRules.HostConditions;
    if p.pathType.ImplementationSpecific? && p.path != "" && !RoutingRules.IsCustom(p.path) && parse(p.path).Success? {
      RoutingRules.LayoutPrinted(parse, p.path);
    }
  }

  /** A path whose backend has a node port and whose condition can be printed. */
  predicate PathFits(env: Env, cluster: Cluster, p: IngressPath)
    requires GoodHash(env.gen) && ServicesFit(cluster)
  {
    Resolve(env, cluster, p.backend).Success? && Prints(env.parse, p)
  }

  /** A TLS host is named, and the secret of the last entry naming it is named and there. */
  ghost predicate TlsFits(cluster: Cluster, ing: Ingress, host: string) {
    HasTls(ing.tls, host) ==> host != "" && exists secret <- cluster.secrets :: secret != "" && IsSecretOf(ing.tls, host, secret)
  }

  ghost predicate RuleFits(env: Env, cluster: Cluster, ing: Ingress, rule: IngressRule)
    requires GoodHash(env.gen) && ServicesFit(cluster)
  {
    rule.http.Some? && (forall p <- rule.http.value :: PathFits(env, cluster, p)) && TlsFits(cluster, ing, rule.host)
  }

  lemma RuleOfSucceeds(env: Env, cluster: Cluster, p: IngressPath, host: string)
    requires GoodHash(env.gen) && ServicesFit(cluster)
    ensures RuleOf(env, cluster, p, host).Success? <==> PathFits(env, cluster, p)
  {
    hide RoutingRules.RuleCondition, Prints, Resolve;
    PrintsExactly(env.parse, p, host);
  }

  lemma {:induction false} HttpRulesSucceed(env: Env, cluster: Cluster, paths: seq<IngressPath>, host: string)
    requires GoodHash(env.gen) && ServicesFit(cluster)
    ensures HttpRules(env, cluster, paths, host).Success? <==> forall p <- paths :: PathFits(env, cluster, p)
  {
    hide RuleOf, PathFits, HasName;
    if paths != [] {
      var init, p := paths[..|paths| - 1], paths[|paths| - 1];
      HttpRulesSucceed(env, cluster, init, host);
      RuleOfSucceeds(env, cluster, p, host);
      assert paths == init + [p];
    }
  }

  lemma CertificateSucceeds(cluster: Cluster, ing: Ingress, s: Store, host: string)
    ensures AddCertificate(cluster, ing, s, host).Success? <==> TlsFits(cluster, ing, host)
  {
    LastEntryWins(ing.tls, host);
    if host in HostsWithTls(ing.tls) {
      assert IsSecretOf(ing.tls, host, HostsWithTls(ing.tls)[host]);
    }
  }

  /** One round succeeds or not whatever the tables hold. */
  lemma AddRuleSucceeds(env: Env, cluster: Cluster, ing: Ingress, s: Store, rule: IngressRule)
    requires GoodHash(env.gen) && ServicesFit(cluster) && OwnEntries(env, ing.rules, s) && EntriesApart(env, ing.rules)
    requires rule in ing.rules && IsIngressHost(rule.host)
    ensures AddRule(env, cluster, ing, s, rule).Success? <==> RuleFits(env, cluster, ing, rule)
  {
    hide HttpRules, AddCertificate, TlsFits, PathFits, ListenerName, RoutingPolicyName, IsListenerName, IsPolicyName, HostListener,
      AddHostname, AddPolicy, EntryHost, OwnEntries, EntriesApart;
    if rule.http.Some? { HttpRulesSucceed(env, cluster, rule.http.value, rule.host); }
    CertificateSucceeds(cluster, ing, s, rule.host);
    if AddCertificate(cluster, ing, s, rule.host).Success? { OwnHost(env, cluster, ing, s, rule); }
    ListenerNameFits(env.gen, rule.host);
    RoutingPolicyNameFits(env.gen, rule.host);
  }

  lemma {:induction false} AddRulesSucceed(env: Env, cluster: Cluster, ing: Ingress, n: nat)
    requires GoodHash(env.gen) && ServicesFit(cluster) && EntriesApart(env, ing.rules) && n <= |ing.rules|
    requires forall rule <- ing.rules :: IsIngressHost(rule.host)
    ensures AddRules(env, cluster, ing, n).Success? <==> forall i | 0 <= i < n :: RuleFits(env, cluster, ing, ing.rules[i])
  {
    hide AddRule, RuleFits, IsIngressHost;
    if n > 0 {
      AddRulesSucceed(env, cluster, ing, n - 1);
      if AddRules(env, cluster, ing, n - 1).Success? {
        RulesEntries(env, cluster, ing, n - 1);
        AddRuleSucceeds(env, cluster, ing, AddRules(env, cluster, ing, n - 1).value, ing.rules[n - 1]);
      }
    }
  }

  lemma FrontNeeds(env: Env, cluster: Cluster, ing: Ingress)
    requires GoodHash(env.gen) && ServicesFit(cluster)
    ensures Front(env, cluster, ing).Success? <==>
      && AddRules(env, cluster, ing, |ing.rules|).Success?
      && (ing.defaultBackend.Some? ==> Resolve(env, cluster, ing.defaultBackend.value).Success?)
  {
    hide AddRules, Resolve;
  }

  /** The front tables compile if and only if every rule fits and the default backend, if there is one, has a node port. */
  lemma CompilesExactly(env: Env, cluster: Cluster, ing: Ingress)
    requires GoodHash(env.gen) && ServicesFit(cluster) && EntriesApart(env, ing.rules)
    requires forall rule <- ing.rules :: IsIngressHost(rule.host)
    ensures Front(env, cluster, ing).Success? <==>
      && (forall rule <- ing.rules :: RuleFits(env, cluster, ing, rule))
      && (ing.defaultBackend.Some? ==> Resolve(env, cluster, ing.defaultBackend.value).Success?)
  {
    hide AddRules, RuleFits, Resolve, Front, IsIngressHost, EntriesApart;
    AddRulesSucceed(env, cluster, ing, |ing.rules|);
    FrontNeeds(env, cluster, ing);
    if forall i | 0 <= i < |ing.rules| :: RuleFits(env, cluster, ing, ing.rules[i]) {
      forall rule | rule in ing.rules ensures RuleFits(env, cluster, ing, rule) {
        var i :| 0 <= i < |ing.rules| && ing.rules[i] == rule;
      }
    }
  }

  /** A spec can be built if and only if nothing below is objected to. */
  ghost predicate Unobjectionable(env: Env, cluster: Cluster, ing: Ingress)
    requires GoodHash(env.gen) && ServicesFit(cluster)
  {
    && ing.opening.None? && ing.closing.None? && ing.policy.Success?
    && (forall rule <- ing.rules :: RuleFits(env, cluster, ing, rule))
    && (ing.defaultBackend.Some? ==> Resolve(env, cluster, ing.defaultBackend.value).Success?)
    && forall svc <- Services(ing) | svc in cluster.services ::
         cluster.services[svc].ports == [] || cluster.services[svc].healthChecker.Success?
  }

  lemma BuildableExactly(env: Env, cluster: Cluster, ing: Ingress)
    requires GoodHash(env.gen) && ServicesFit(cluster) && EntriesApart(env, ing.rules)
    requires forall rule <- ing.rules :: IsIngressHost(rule.host)
    ensures Buildable(env, cluster, ing) <==> Unobjectionable(env, cluster, ing)
  {
    hide Front, RuleFits, Resolve, EntriesApart, IsIngressHost, Services;
    CompilesExactly(env, cluster, ing);
  }
}
