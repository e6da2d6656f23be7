/** First-match routing: the compiled policy of a host picks what the Ingress declares for it. */
module SpecMeaning {
  import opened Wrappers
  import opened Strings
  import opened Names
  import opened Tables
  import opened Conditions
  import opened Prefixes
  import RoutingRules
  import opened SpecCompiler
  import opened SpecClosure

  /** How texts beyond the condition grammar behave. */
  type Custom = (string, Request) -> bool

  /** A policy forwards to the backend set of the first rule whose condition holds. */
  ghost function FirstMatch(rules: seq<Rule>, req: Request, custom: Custom): Option<string> {
    if rules == [] then None
    else if RoutingRules.Meaning(rules[0].condition, req, custom) then Some(rules[0].backendSet)
    else FirstMatch(rules[1..], req, custom)
  }

  function OrElse<T>(a: Option<T>, b: Option<T>): Option<T> {
    if a.Some? then a else b
  }

  // ---------------------------------------------------------------------------------------------
  // What an Ingress declares

  /** How a `Prefix` path is read: as the text the compiler takes it for, or by path elements as Kubernetes documents it. */
  datatype Reading = AsText | AsElements

  ghost predicate PathMatches(env: Env, p: IngressPath, path: string, reading: Reading) {
    if p.pathType.Prefix? && reading.AsElements? then ByElements(p.path, path) else RoutingRules.PathAsks(env.parse, p, path)
  }

  /**
   Whether a path of a rule for `host` is meant for the request: by host and path, or by its custom condition, to which
   the host is added if it is of a form that keeps it. Texts beyond the grammar, and literals with a quote, are left
   to what the printed text means.
   */
  ghost predicate Chosen(env: Env, p: IngressPath, host: string, req: Request, custom: Custom, reading: Reading := AsText) {
    if QuoteFree(host) && RoutingRules.Literal(env.parse, p)
    then RoutingRules.HostTest(host, req) && PathMatches(env, p, req.path, reading)
    else if QuoteFree(host) && RoutingRules.IsReadable(env.parse, p)
    then
      var text := RoutingRules.ProcessImplementationSpecificPath(env.parse, p.path).value;
      (RoutingRules.KeepsHost(text) ==> RoutingRules.HostTest(host, req)) && Eval(Parse(text).value, req)
    else match RoutingRules.RuleCondition(env.parse, p, host)
      case Success(text) => RoutingRules.Meaning(text, req, custom)
      case Failure(_) => false
  }

  ghost function Target(env: Env, p: IngressPath, host: string, req: Request, custom: Custom, reading: Reading := AsText)
    : Option<RoutingRules.Backend>
  {
    if Chosen(env, p, host, req, custom, reading) then Some(p.backend) else None
  }

  /** The backend of the first path meant for the request. */
  ghost function FirstPath(env: Env, paths: seq<IngressPath>, host: string, req: Request, custom: Custom, reading: Reading := AsText)
    : Option<RoutingRules.Backend>
  {
    if paths == [] then None
    else OrElse(FirstPath(env, paths[..|paths| - 1], host, req, custom, reading),
                Target(env, paths[|paths| - 1], host, req, custom, reading))
  }

  /** The same over all Ingress rules for the host, in declaration order. */
  ghost function FirstDeclared(env: Env, rules: seq<IngressRule>, host: string, req: Request, custom: Custom, reading: Reading := AsText)
    : Option<RoutingRules.Backend>
  {
    if rules == [] then None
    else
      var last := rules[|rules| - 1];
      OrElse(FirstDeclared(env, rules[..|rules| - 1], host, req, custom, reading),
             if last.host == host && last.http.Some? then FirstPath(env, last.http.value, host, req, custom, reading) else None)
  }

  /** The backend a request goes to that no path is meant for. */
  function DefaultTarget(ing: Ingress, req: Request): Option<RoutingRules.Backend> {
    if StartsWith(req.path, "/") then ing.defaultBackend else None
  }

  /** The backend an Ingress declares for a request to one of its hosts. */
  ghost function Declared(env: Env, ing: Ingress, host: string, req: Request, custom: Custom, reading: Reading := AsText)
    : Option<RoutingRules.Backend>
  {
    OrElse(FirstDeclared(env, ing.rules, host, req, custom, reading), DefaultTarget(ing, req))
  }

  /** The backend set for a declared backend. */
  function SentTo(env: Env, cluster: Cluster, backend: Option<RoutingRules.Backend>): Option<string>
    requires GoodHash(env.gen) && ServicesFit(cluster)
  {
    if backend.None? then None
    else match Resolve(env, cluster, backend.value)
      case Success(backendSet) => Some(backendSet)
      case Failure(_) => None
  }

  predicate Resolves(env: Env, cluster: Cluster, backend: Option<RoutingRules.Backend>)
    requires GoodHash(env.gen) && ServicesFit(cluster)
  {
    backend.Some? ==> Resolve(env, cluster, backend.value).Success?
  }

  lemma SentToOrElse(env: Env, cluster: Cluster, a: Option<RoutingRules.Backend>, b: Option<RoutingRules.Backend>)
    requires GoodHash(env.gen) && ServicesFit(cluster) && Resolves(env, cluster, a) && Resolves(env, cluster, b)
    ensures SentTo(env, cluster, OrElse(a, b)) == OrElse(SentTo(env, cluster, a), SentTo(env, cluster, b))
    ensures Resolves(env, cluster, OrElse(a, b))
  {
  }

  // ---------------------------------------------------------------------------------------------
  // One Ingress rule

  lemma {:induction false} FirstMatchConcat(a: seq<Rule>, b: seq<Rule>, req: Request, custom: Custom)
    ensures FirstMatch(a + b, req, custom) == OrElse(FirstMatch(a, req, custom), FirstMatch(b, req, custom))
  {
    if a == [] {
      assert a + b == b;
    } else {
      assert (a + b)[1..] == a[1..] + b && (a + b)[0] == a[0];
      FirstMatchConcat(a[1..], b, req, custom);
    }
  }

  lemma FirstMatchSingle(r: Rule, req: Request, custom: Custom)
    ensures FirstMatch([r], req, custom) == if RoutingRules.Meaning(r.condition, req, custom) then Some(r.backendSet) else None
  {
    assert [r][1..] == [];
  }

  lemma {:induction false} NoMatch(rules: seq<Rule>, req: Request, custom: Custom, r: Rule)
    requires FirstMatch(rules, req, custom).None? && r in rules
    ensures !RoutingRules.Meaning(r.condition, req, custom)
  {
    if r != rules[0] { NoMatch(rules[1..], req, custom, r); }
  }

  /** The routing rule of a path applies to the requests the path is meant for. */
  lemma RuleMeaning(env: Env, cluster: Cluster, p: IngressPath, host: string, req: Request, custom: Custom)
    requires GoodHash(env.gen) && ServicesFit(cluster) && RuleOf(env, cluster, p, host).Success?
    ensures FirstMatch([RuleOf(env, cluster, p, host).value], req, custom)
         == SentTo(env, cluster, Target(env, p, host, req, custom))
    ensures Resolves(env, cluster, Target(env, p, host, req, custom))
  {
    FirstMatchSingle(RuleOf(env, cluster, p, host).value, req, custom);
    ChosenMeaning(env, p, host, req, custom);
  }

  lemma ChosenMeaning(env: Env, p: IngressPath, host: string, req: Request, custom: Custom)
    requires RoutingRules.RuleCondition(env.parse, p, host).Success?
    ensures Chosen(env, p, host, req, custom)
            <==> RoutingRules.Meaning(RoutingRules.RuleCondition(env.parse, p, host).value, req, custom)
  {
    if QuoteFree(host) {
      if RoutingRules.Literal(env.parse, p) {
        RoutingRules.ConditionMeaning(env.parse, p, host, req, custom);
      } else if RoutingRules.IsReadable(env.parse, p) {
        RoutingRules.CustomMeans(env.parse, p, host, req, custom);
      }
    }
  }

  /** Hypothesis on the hash behind rule names: within one Ingress rule it tells different paths apart. */
  ghost predicate RuleNamesApart(env: Env, paths: seq<IngressPath>) {
    forall p, q | p in paths && q in paths && env.ruleName(p) == env.ruleName(q) :: p == q
  }

  lemma {:induction false} HttpRulesOrigin(env: Env, cluster: Cluster, paths: seq<IngressPath>, host: string, r: Rule)
    returns (p: IngressPath)
    requires GoodHash(env.gen) && ServicesFit(cluster)
    requires HttpRules(env, cluster, paths, host).Success? && r in HttpRules(env, cluster, paths, host).value
    ensures p in paths && RuleOf(env, cluster, p, host) == Success(r)
  {
    var init := paths[..|paths| - 1];
    if r in HttpRules(env, cluster, init, host).value {
      p := HttpRulesOrigin(env, cluster, init, host, r);
    } else {
      p := paths[|paths| - 1];
    }
  }

  /** Ignoring rules whose name occurred before never changes the choice. */
  lemma {:induction false} HttpRulesMeaning(env: Env, cluster: Cluster, paths: seq<IngressPath>, host: string, req: Request, custom: Custom)
    requires GoodHash(env.gen) && ServicesFit(cluster)
    requires HttpRules(env, cluster, paths, host).Success? && RuleNamesApart(env, paths)
    ensures FirstMatch(HttpRules(env, cluster, paths, host).value, req, custom)
         == SentTo(env, cluster, FirstPath(env, paths, host, req, custom))
    ensures Resolves(env, cluster, FirstPath(env, paths, host, req, custom))
  {
    hide HttpRules, RuleOf, FirstMatch, SentTo, Target, Resolves, OrElse;
    if paths == [] {
      NothingMeant(env, cluster, host, req, custom);
    } else {
      var init, p := paths[..|paths| - 1], paths[|paths| - 1];
      HttpRulesParts(env, cluster, paths, host);
      HttpRulesMeaning(env, cluster, init, host, req, custom);
      RuleMeaning(env, cluster, p, host, req, custom);
      SentToOrElse(env, cluster, FirstPath(env, init, host, req, custom), Target(env, p, host, req, custom));
      OneMoreRule(env, cluster, init, p, host, req, custom);
      assert paths == init + [p];
    }
  }

  lemma NothingMeant(env: Env, cluster: Cluster, host: string, req: Request, custom: Custom)
    requires GoodHash(env.gen) && ServicesFit(cluster)
    ensures HttpRules(env, cluster, [], host).Success?
    ensures FirstMatch(HttpRules(env, cluster, [], host).value, req, custom) == SentTo(env, cluster, None)
    ensures Resolves(env, cluster, None)
  {
  }

  lemma HttpRulesParts(env: Env, cluster: Cluster, paths: seq<IngressPath>, host: string)
    requires GoodHash(env.gen) && ServicesFit(cluster) && paths != [] && HttpRules(env, cluster, paths, host).Success?
    ensures HttpRules(env, cluster, paths[..|paths| - 1], host).Success?
    ensures RuleOf(env, cluster, paths[|paths| - 1], host).Success?
  {
  }

  lemma OneMoreRule(env: Env, cluster: Cluster, init: seq<IngressPath>, p: IngressPath, host: string, req: Request, custom: Custom)
    requires GoodHash(env.gen) && ServicesFit(cluster) && RuleNamesApart(env, init + [p])
    requires HttpRules(env, cluster, init, host).Success? && RuleOf(env, cluster, p, host).Success?
    ensures HttpRules(env, cluster, init + [p], host).Success?
    ensures FirstMatch(HttpRules(env, cluster, init + [p], host).value, req, custom)
         == OrElse(FirstMatch(HttpRules(env, cluster, init, host).value, req, custom),
                   FirstMatch([RuleOf(env, cluster, p, host).value], req, custom))
  {
    var rules, r := HttpRules(env, cluster, init, host).value, RuleOf(env, cluster, p, host).value;
    assert (init + [p])[..|init + [p]| - 1] == init && (init + [p])[|init|] == p;
    if HasName(rules, r.name) {
      DuplicateIsHarmless(env, cluster, init, p, host, req, custom);
    } else {
      FirstMatchConcat(rules, [r], req, custom);
    }
  }

  lemma DuplicateIsHarmless(env: Env, cluster: Cluster, init: seq<IngressPath>, p: IngressPath, host: string, req: Request, custom: Custom)
    requires GoodHash(env.gen) && ServicesFit(cluster)
    requires HttpRules(env, cluster, init, host).Success? && RuleOf(env, cluster, p, host).Success?
    requires RuleNamesApart(env, init + [p])
    requires HasName(HttpRules(env, cluster, init, host).value, RuleOf(env, cluster, p, host).value.name)
    ensures var first := FirstMatch(HttpRules(env, cluster, init, host).value, req, custom);
            OrElse(first, FirstMatch([RuleOf(env, cluster, p, host).value], req, custom)) == first
  {
    var rules, r := HttpRules(env, cluster, init, host).value, RuleOf(env, cluster, p, host).value;
    var same :| same in rules && same.name == r.name;
    var q := HttpRulesOrigin(env, cluster, init, host, same);
    assert q in init + [p] && p in init + [p] && env.ruleName(q) == env.ruleName(p);
    FirstMatchSingle(r, req, custom);
    if FirstMatch(rules, req, custom).None? { NoMatch(rules, req, custom, same); }
  }

  // ---------------------------------------------------------------------------------------------
  // All Ingress rules: merging

  /** The rules of all Ingress rules whose host gives the policy name, one after the other. */
  function Merged(env: Env, cluster: Cluster, rules: seq<IngressRule>, name: string): seq<Rule>
    requires GoodHash(env.gen) && ServicesFit(cluster)
  {
    if rules == [] then []
    else
      var last := rules[|rules| - 1];
      Merged(env, cluster, rules[..|rules| - 1], name)
      + if last.http.Some? && RoutingPolicyName(env.gen, last.host) == name
           && HttpRules(env, cluster, last.http.value, last.host).Success?
        then HttpRules(env, cluster, last.http.value, last.host).value else []
  }

  ghost predicate HasPolicy(env: Env, rules: seq<IngressRule>, name: string)
    requires GoodHash(env.gen)
  {
    exists rule <- rules :: RoutingPolicyName(env.gen, rule.host) == name
  }

  lemma HasPolicyStep(env: Env, rules: seq<IngressRule>, n: nat, name: string)
    requires GoodHash(env.gen) && n < |rules|
    ensures HasPolicy(env, rules[..n + 1], name)
            <==> HasPolicy(env, rules[..n], name) || RoutingPolicyName(env.gen, rules[n].host) == name
  {
    assert rules[..n + 1] == rules[..n] + [rules[n]];
  }

  /** What one round does to a policy. */
  lemma RulePolicy(env: Env, cluster: Cluster, ing: Ingress, s: Store, rule: IngressRule, name: string)
    requires GoodHash(env.gen) && ServicesFit(cluster) && AddRule(env, cluster, ing, s, rule).Success?
    ensures rule.http.Some? && HttpRules(env, cluster, rule.http.value, rule.host).Success?
    ensures var k := Key(RoutingPolicies, name);
      At(AddRule(env, cluster, ing, s, rule).value, k)
      == if RoutingPolicyName(env.gen, rule.host) != name then At(s, k)
         else Some(RoutingPolicy("V1", (if k in s && s[k].RoutingPolicy? then s[k].rules else [])
                                       + HttpRules(env, cluster, rule.http.value, rule.host).value))
  {
    hide ListenerName, IsListenerName, IsPolicyName, HttpRules, HostListener;
    var k := Key(RoutingPolicies, name);
    var rules := HttpRules(env, cluster, rule.http.value, rule.host).value;
    var (ssl, s1) := AddCertificate(cluster, ing, s, rule.host).value;
    assert At(s1, k) == At(s, k);
    assert At(AddHostname(env, s1, rule.host), k) == At(s, k);
    assert [] + rules == rules;
  }

  lemma NoPolicyYet(env: Env, cluster: Cluster, ing: Ingress, name: string)
    requires GoodHash(env.gen) && ServicesFit(cluster)
    ensures AddRules(env, cluster, ing, 0).Success? && PolicyIsMerged(env, cluster, ing, 0, name)
  {
  }

  lemma {:induction false} PolicyRules(env: Env, cluster: Cluster, ing: Ingress, n: nat, name: string)
    requires GoodHash(env.gen) && ServicesFit(cluster) && n <= |ing.rules| && AddRules(env, cluster, ing, n).Success?
    ensures PolicyIsMerged(env, cluster, ing, n, name)
  {
    hide AddRules, PolicyIsMerged;
    if n == 0 {
      NoPolicyYet(env, cluster, ing, name);
    } else {
      RuleCompiles(env, cluster, ing, n - 1);
      PolicyRules(env, cluster, ing, n - 1, name);
      PolicyRulesStep(env, cluster, ing, n - 1, name);
    }
  }

  ghost predicate PolicyIsMerged(env: Env, cluster: Cluster, ing: Ingress, n: nat, name: string)
    requires GoodHash(env.gen) && ServicesFit(cluster) && n <= |ing.rules| && AddRules(env, cluster, ing, n).Success?
  {
    At(AddRules(env, cluster, ing, n).value, Key(RoutingPolicies, name)) == PolicyOf(env, cluster, ing.rules[..n], name)
  }

  lemma PolicyRulesStep(env: Env, cluster: Cluster, ing: Ingress, n: nat, name: string)
    requires GoodHash(env.gen) && ServicesFit(cluster) && n < |ing.rules| && AddRules(env, cluster, ing, n + 1).Success?
    requires AddRules(env, cluster, ing, n).Success?
    requires PolicyIsMerged(env, cluster, ing, n, name)
    ensures PolicyIsMerged(env, cluster, ing, n + 1, name)
  {
    PolicyRound(env, cluster, ing, n, name);
    PolicyStep(env, cluster, ing.rules, n, name);
  }

  function WithRules(r: Option<Resource>, rules: seq<Rule>): Option<Resource> {
    Some(RoutingPolicy("V1", (if r.Some? && r.value.RoutingPolicy? then r.value.rules else []) + rules))
  }

  /** What the `n`-th round does to a policy. */
  lemma PolicyRound(env: Env, cluster: Cluster, ing: Ingress, n: nat, name: string)
    requires GoodHash(env.gen) && ServicesFit(cluster) && n < |ing.rules| && AddRules(env, cluster, ing, n + 1).Success?
    ensures AddRules(env, cluster, ing, n).Success? && ing.rules[n].http.Some?
    ensures HttpRules(env, cluster, ing.rules[n].http.value, ing.rules[n].host).Success?
    ensures var k := Key(RoutingPolicies, name);
            var before := At(AddRules(env, cluster, ing, n).value, k);
      At(AddRules(env, cluster, ing, n + 1).value, k)
      == if RoutingPolicyName(env.gen, ing.rules[n].host) != name then before
         else WithRules(before, HttpRules(env, cluster, ing.rules[n].http.value, ing.rules[n].host).value)
  {
    RulePolicy(env, cluster, ing, AddRules(env, cluster, ing, n).value, ing.rules[n], name);
  }

  /** The policy that the first rules make. */
  ghost function PolicyOf(env: Env, cluster: Cluster, rules: seq<IngressRule>, name: string): Option<Resource>
    requires GoodHash(env.gen) && ServicesFit(cluster)
  {
    if HasPolicy(env, rules, name) then Some(RoutingPolicy("V1", Merged(env, cluster, rules, name))) else None
  }

  lemma PolicyStep(env: Env, cluster: Cluster, rules: seq<IngressRule>, n: nat, name: string)
    requires GoodHash(env.gen) && ServicesFit(cluster) && n < |rules| && rules[n].http.Some?
    requires HttpRules(env, cluster, rules[n].http.value, rules[n].host).Success?
    ensures PolicyOf(env, cluster, rules[..n + 1], name)
         == if RoutingPolicyName(env.gen, rules[n].host) != name then PolicyOf(env, cluster, rules[..n], name)
            else WithRules(PolicyOf(env, cluster, rules[..n], name),
                           HttpRules(env, cluster, rules[n].http.value, rules[n].host).value)
  {
    HasPolicyStep(env, rules, n, name);
    MergedStep(env, cluster, rules, n, name);
    if !HasPolicy(env, rules[..n], name) { MergedNone(env, cluster, rules[..n], name); }
  }

  lemma MergedStep(env: Env, cluster: Cluster, rules: seq<IngressRule>, n: nat, name: string)
    requires GoodHash(env.gen) && ServicesFit(cluster) && n < |rules| && rules[n].http.Some?
    requires HttpRules(env, cluster, rules[n].http.value, rules[n].host).Success?
    ensures Merged(env, cluster, rules[..n + 1], name)
         == if RoutingPolicyName(env.gen, rules[n].host) == name
            then Merged(env, cluster, rules[..n], name) + HttpRules(env, cluster, rules[n].http.value, rules[n].host).value
            else Merged(env, cluster, rules[..n], name)
  {
    assert rules[..n + 1][..n] == rules[..n] && rules[..n + 1][n] == rules[n];
    assert Merged(env, cluster, rules[..n], name) + [] == Merged(env, cluster, rules[..n], name);
  }

  lemma {:induction false} MergedNone(env: Env, cluster: Cluster, rules: seq<IngressRule>, name: string)
    requires GoodHash(env.gen) && ServicesFit(cluster) && !HasPolicy(env, rules, name)
    ensures Merged(env, cluster, rules, name) == []
  {
    if rules != [] {
      assert rules[|rules| - 1] in rules;
      assert forall rule :: rule in rules[..|rules| - 1] ==> rule in rules;
      MergedNone(env, cluster, rules[..|rules| - 1], name);
    }
  }

  /** Hypothesis on the hash behind policy names: it tells different hosts of the Ingress apart. */
  ghost predicate PolicyNamesApart(env: Env, rules: seq<IngressRule>, host: string)
    requires GoodHash(env.gen)
  {
    forall rule <- rules :: RoutingPolicyName(env.gen, rule.host) == RoutingPolicyName(env.gen, host) ==> rule.host == host
  }

  ghost predicate AllRuleNamesApart(env: Env, rules: seq<IngressRule>) {
    forall rule <- rules | rule.http.Some? :: RuleNamesApart(env, rule.http.value)
  }

  ghost predicate AllCompile(env: Env, cluster: Cluster, rules: seq<IngressRule>)
    requires GoodHash(env.gen) && ServicesFit(cluster)
  {
    forall rule <- rules :: rule.http.Some? && HttpRules(env, cluster, rule.http.value, rule.host).Success?
  }

  /** Merging the rules of one host never changes the choice. */
  lemma {:induction false} MergedMeaning(env: Env, cluster: Cluster, rules: seq<IngressRule>, host: string, req: Request, custom: Custom)
    requires GoodHash(env.gen) && ServicesFit(cluster) && AllCompile(env, cluster, rules)
    requires PolicyNamesApart(env, rules, host) && AllRuleNamesApart(env, rules)
    ensures FirstMatch(Merged(env, cluster, rules, RoutingPolicyName(env.gen, host)), req, custom)
         == SentTo(env, cluster, FirstDeclared(env, rules, host, req, custom))
    ensures Resolves(env, cluster, FirstDeclared(env, rules, host, req, custom))
  {
    if rules != [] {
      var init, last := rules[..|rules| - 1], rules[|rules| - 1];
      assert last in rules && forall rule :: rule in init ==> rule in rules;
      MergedMeaning(env, cluster, init, host, req, custom);
      HttpRulesMeaning(env, cluster, last.http.value, last.host, req, custom);
      MergedStepMeaning(env, cluster, rules, host, req, custom);
      SentToOrElse(env, cluster, FirstDeclared(env, init, host, req, custom),
                   if last.host == host then FirstPath(env, last.http.value, host, req, custom) else None);
    }
  }

  lemma MergedStepMeaning(env: Env, cluster: Cluster, rules: seq<IngressRule>, host: string, req: Request, custom: Custom)
    requires GoodHash(env.gen) && ServicesFit(cluster) && rules != [] && PolicyNamesApart(env, rules, host)
    requires var last := rules[|rules| - 1]; last.http.Some? && HttpRules(env, cluster, last.http.value, last.host).Success?
    ensures var last, name := rules[|rules| - 1], RoutingPolicyName(env.gen, host);
      FirstMatch(Merged(env, cluster, rules, name), req, custom)
      == OrElse(FirstMatch(Merged(env, cluster, rules[..|rules| - 1], name), req, custom),
                if last.host == host then FirstMatch(HttpRules(env, cluster, last.http.value, last.host).value, req, custom) else None)
  {
    var init, last, name := rules[..|rules| - 1], rules[|rules| - 1], RoutingPolicyName(env.gen, host);
    assert last in rules;
    MergedStep(env, cluster, rules, |rules| - 1, name);
    assert rules[..|rules|] == rules;
    if last.host == host {
      FirstMatchConcat(Merged(env, cluster, init, name), HttpRules(env, cluster, last.http.value, last.host).value, req, custom);
    }
  }

  // ---------------------------------------------------------------------------------------------
  // The default rule, and the whole

  /** The rule for the default backend, spelled out. */
  lemma DefaultRuleText(backendSet: string)
    ensures DefaultRule(backendSet) == Rule("default-backend-route", "all(http.request.url.path sw '/')", backendSet)
  {
    assert "all(" + PATH + "sw '" + "/" + "')" == "all(http.request.url.path sw '/')";
  }

  lemma DefaultRuleMeaning(backendSet: string, req: Request, custom: Custom)
    ensures FirstMatch([DefaultRule(backendSet)], req, custom) == if StartsWith(req.path, "/") then Some(backendSet) else None
  {
    var c := PathIs(Sw, "/");
    FirstMatchSingle(DefaultRule(backendSet), req, custom);
    assert DefaultRule(backendSet).condition == Spell(All(Last(c))) by {
      assert SpellList(Last(c)) == PATH + "sw '" + "/" + "'";
    }
    assert PlainList(Last(c));
    ParseBack(All(Last(c)));
    assert EvalAll(Last(c), req) <==> Eval(c, req);
  }

  lemma AllCompileStep(env: Env, cluster: Cluster, rules: seq<IngressRule>, n: nat)
    requires GoodHash(env.gen) && ServicesFit(cluster) && n < |rules| && AllCompile(env, cluster, rules[..n])
    requires rules[n].http.Some? && HttpRules(env, cluster, rules[n].http.value, rules[n].host).Success?
    ensures AllCompile(env, cluster, rules[..n + 1])
  {
    assert rules[..n + 1] == rules[..n] + [rules[n]];
  }

  lemma RuleCompiles(env: Env, cluster: Cluster, ing: Ingress, n: nat)
    requires GoodHash(env.gen) && ServicesFit(cluster) && n < |ing.rules| && AddRules(env, cluster, ing, n + 1).Success?
    ensures AddRules(env, cluster, ing, n).Success? && ing.rules[n].http.Some?
    ensures HttpRules(env, cluster, ing.rules[n].http.value, ing.rules[n].host).Success?
  {
  }

  lemma {:induction false} AllRulesCompile(env: Env, cluster: Cluster, ing: Ingress, n: nat)
    requires GoodHash(env.gen) && ServicesFit(cluster) && n <= |ing.rules| && AddRules(env, cluster, ing, n).Success?
    ensures AllCompile(env, cluster, ing.rules[..n])
  {
    if n > 0 {
      hide AddRules, AllCompile;
      RuleCompiles(env, cluster, ing, n - 1);
      AllRulesCompile(env, cluster, ing, n - 1);
      AllCompileStep(env, cluster, ing.rules, n - 1);
    }
  }

  /** The default rules at the end of a policy. */
  function DefaultRules(env: Env, cluster: Cluster, ing: Ingress): seq<Rule>
    requires GoodHash(env.gen) && ServicesFit(cluster)
  {
    if ing.defaultBackend.Some? && Resolve(env, cluster, ing.defaultBackend.value).Success?
    then [DefaultRule(Resolve(env, cluster, ing.defaultBackend.value).value)] else []
  }

  lemma FrontPolicy(env: Env, cluster: Cluster, ing: Ingress, name: string)
    requires GoodHash(env.gen) && ServicesFit(cluster) && Front(env, cluster, ing).Success?
    ensures At(Front(env, cluster, ing).value, Key(RoutingPolicies, name))
         == if HasPolicy(env, ing.rules, name)
            then Some(RoutingPolicy("V1", Merged(env, cluster, ing.rules, name) + DefaultRules(env, cluster, ing))) else None
  {
    hide AddRules;
    var k := Key(RoutingPolicies, name);
    var s := AddRules(env, cluster, ing, |ing.rules|).value;
    assert ing.rules[..|ing.rules|] == ing.rules;
    PolicyRules(env, cluster, ing, |ing.rules|, name);
    DefaultPolicy(env, cluster, ing, s, k);
    var t := AddDefault(env, cluster, ing, s).value;
    assert At(AddRedirector(env, ing, t), k) == At(t, k);
    assert Merged(env, cluster, ing.rules, name) + [] == Merged(env, cluster, ing.rules, name);
  }

  lemma DefaultPolicy(env: Env, cluster: Cluster, ing: Ingress, s: Store, k: Key)
    requires GoodHash(env.gen) && ServicesFit(cluster) && AddDefault(env, cluster, ing, s).Success?
    requires k.kind == RoutingPolicies && (k in s ==> s[k].RoutingPolicy?)
    ensures At(AddDefault(env, cluster, ing, s).value, k)
         == if k in s then Some(RoutingPolicy(s[k].version, s[k].rules + DefaultRules(env, cluster, ing))) else None
  {
    if k in s { assert s[k].rules + [] == s[k].rules; }
  }

  lemma DefaultRulesMeaning(env: Env, cluster: Cluster, ing: Ingress, req: Request, custom: Custom)
    requires GoodHash(env.gen) && ServicesFit(cluster) && Resolves(env, cluster, ing.defaultBackend)
    ensures FirstMatch(DefaultRules(env, cluster, ing), req, custom) == SentTo(env, cluster, DefaultTarget(ing, req))
  {
    if ing.defaultBackend.Some? {
      DefaultRuleMeaning(Resolve(env, cluster, ing.defaultBackend.value).value, req, custom);
    }
  }

  lemma FrontResolves(env: Env, cluster: Cluster, ing: Ingress)
    requires GoodHash(env.gen) && ServicesFit(cluster) && Front(env, cluster, ing).Success?
    ensures AllCompile(env, cluster, ing.rules) && Resolves(env, cluster, ing.defaultBackend)
  {
    AllRulesCompile(env, cluster, ing, |ing.rules|);
    assert ing.rules[..|ing.rules|] == ing.rules;
  }

  /**
   Meaning preservation: for every host of the Ingress and every request, the compiled policy forwards to the backend set of
   the first matching path over all rules for that host in declaration order, else to that of the default backend
   if there is one, else it matches nothing and leaves the request to the listener's default set.
   */
  lemma RoutingPreserved(env: Env, cluster: Cluster, ing: Ingress, spec: Store, rule: IngressRule, req: Request, custom: Custom)
    requires GoodHash(env.gen) && ServicesFit(cluster) && IsSpec(env, cluster, ing, spec) && rule in ing.rules
    requires PolicyNamesApart(env, ing.rules, rule.host) && AllRuleNamesApart(env, ing.rules)
    ensures var k := Key(RoutingPolicies, RoutingPolicyName(env.gen, rule.host));
      && k in spec && spec[k].RoutingPolicy?
      && FirstMatch(spec[k].rules, req, custom) == SentTo(env, cluster, Declared(env, ing, rule.host, req, custom))
    ensures Resolves(env, cluster, Declared(env, ing, rule.host, req, custom))
  {
    var name := RoutingPolicyName(env.gen, rule.host);
    FrontPolicy(env, cluster, ing, name);
    assert HasPolicy(env, ing.rules, name);
    assert At(spec, Key(RoutingPolicies, name)) == At(Front(env, cluster, ing).value, Key(RoutingPolicies, name));
    FrontResolves(env, cluster, ing);
    MergedMeaning(env, cluster, ing.rules, rule.host, req, custom);
    FirstMatchConcat(Merged(env, cluster, ing.rules, name), DefaultRules(env, cluster, ing), req, custom);
    DefaultRulesMeaning(env, cluster, ing, req, custom);
    SentToOrElse(env, cluster, FirstDeclared(env, ing.rules, rule.host, req, custom), DefaultTarget(ing, req));
  }

  // ---------------------------------------------------------------------------------------------
  // Prefixes by path elements

  /** The two readings of every `Prefix` path of the host agree on a request path. */
  predicate ReadingsAgree(rules: seq<IngressRule>, host: string, path: string) {
    forall rule <- rules | rule.host == host && rule.http.Some? :: PathsAgree(rule.http.value, path)
  }

  predicate PathsAgree(paths: seq<IngressPath>, path: string) {
    forall p <- paths | p.pathType.Prefix? :: StartsWith(path, p.path) <==> ByElements(p.path, path)
  }

  lemma {:induction false} SamePath(env: Env, paths: seq<IngressPath>, host: string, req: Request, custom: Custom)
    requires PathsAgree(paths, req.path)
    ensures FirstPath(env, paths, host, req, custom, AsElements) == FirstPath(env, paths, host, req, custom, AsText)
  {
    if paths != [] {
      assert paths[|paths| - 1] in paths && forall p :: p in paths[..|paths| - 1] ==> p in paths;
      SamePath(env, paths[..|paths| - 1], host, req, custom);
    }
  }

  lemma {:induction false} SameDeclared(env: Env, rules: seq<IngressRule>, host: string, req: Request, custom: Custom)
    requires ReadingsAgree(rules, host, req.path)
    ensures FirstDeclared(env, rules, host, req, custom, AsElements) == FirstDeclared(env, rules, host, req, custom, AsText)
  {
    if rules != [] {
      var last := rules[|rules| - 1];
      assert last in rules && forall rule :: rule in rules[..|rules| - 1] ==> rule in rules;
      SameDeclared(env, rules[..|rules| - 1], host, req, custom);
      if last.host == host && last.http.Some? { SamePath(env, last.http.value, host, req, custom); }
    }
  }

  /** For requests on which the readings agree, the compiled policy also picks the first path by elements. */
  lemma RoutingByElements(env: Env, cluster: Cluster, ing: Ingress, spec: Store, rule: IngressRule, req: Request, custom: Custom)
    requires GoodHash(env.gen) && ServicesFit(cluster) && IsSpec(env, cluster, ing, spec) && rule in ing.rules
    requires PolicyNamesApart(env, ing.rules, rule.host) && AllRuleNamesApart(env, ing.rules)
    requires ReadingsAgree(ing.rules, rule.host, req.path)
    ensures var k := Key(RoutingPolicies, RoutingPolicyName(env.gen, rule.host));
      && k in spec && spec[k].RoutingPolicy?
      && FirstMatch(spec[k].rules, req, custom) == SentTo(env, cluster, Declared(env, ing, rule.host, req, custom, AsElements))
  {
    RoutingPreserved(env, cluster, ing, spec, rule, req, custom);
    SameDeclared(env, ing.rules, rule.host, req, custom);
  }
}
